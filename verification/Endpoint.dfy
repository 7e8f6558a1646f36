/**
 The objects behind a connection: packet number spaces, the TLS session and the connection
 itself, which its methods update in place. Each method is proved against the transition of the
 same name in `Connections`.
 */
module Endpoint {
  import opened Wrappers
  import opened Bytes
  import opened Packets
  import opened Protection
  import opened Tls
  import C = Connections
  import Egress
  import Frames
  import Handshakes
  import Lifecycle
  import PacketCodec
  import PacketLaws
  import Sealing

  /** A packet number space of `space.rs`. */
  class Space {
    var keys: Option<Keys>
    var sendPn: nat
    var largestRecvPn: nat
    var pendingAcks: seq<nat>

    function Model(): C.Space
      reads this
    {
      C.Space(keys, sendPn, largestRecvPn, pendingAcks)
    }

    constructor ()
      ensures Model() == C.NEW_SPACE
    {
      keys, sendPn, largestRecvPn, pendingAcks := None, 0, 0, [];
    }

    method SetKeys(k: Keys)
      modifies this
      ensures Model() == old(Model()).(keys := Some(k))
    {
      keys := Some(k);
    }

    method NextSendPn() returns (pn: nat)
      modifies this
      ensures pn == old(sendPn) && Model() == old(Model()).(nextSendPn := old(sendPn) + 1)
    {
      pn := sendPn;
      sendPn := sendPn + 1;
    }

    method RecordRecvPn(pn: nat)
      modifies this
      ensures Model() == C.Recorded(old(Model()), pn)
    {
      if pn > largestRecvPn {
        largestRecvPn := pn;
      }
      pendingAcks := pendingAcks + [pn];
    }

    method TakePendingAcks() returns (acks: seq<nat>)
      modifies this
      ensures acks == old(pendingAcks) && Model() == old(Model()).(pendingAcks := [])
    {
      acks := pendingAcks;
      pendingAcks := [];
    }
  }

  /** The TLS library's object; its history is all of its state. */
  class TlsConnection {
    const oracle: Oracle
    var history: History

    function Model(): Session
      reads this
    {
      Session(oracle, history)
    }

    constructor (oracle: Oracle)
      ensures Model() == Session(oracle, [])
    {
      this.oracle := oracle;
      history := [];
    }

    method ReadHandshake(level: Level, data: Data) returns (ok: bool)
      modifies this
      ensures (Model(), ok) == ReadHs(old(Model()), level, data)
    {
      ok := oracle.accepts(history, data);
      history := history + [Read(level, data, ok)];
    }

    method WriteHandshake(level: Level) returns (data: Data, keys: Option<Keys>)
      modifies this
      ensures var (s, out, kc) := WriteHs(old(Model()), level);
              Model() == s && data == out && keys == C.KeysOf(kc)
    {
      var output := oracle.output(history);
      history := history + [Write(level)];
      data := output.0;
      keys := if output.1.Some? then Some(output.1.value.keys) else None;
    }
  }

  class Connection {
    const side: C.Side
    var state: C.State
    const tls: TlsConnection
    const version: U32
    const dstCid: Data
    const srcCid: Data
    const initialSpace: Space
    const handshakeSpace: Space
    const appdataSpace: Space
    const pendingCrypto: array<Data>
    const cryptoRecvOffset: array<nat>
    var pendingAppData: Data
    var receivedAppData: Data
    var streamSendOffset: nat
    var closeReason: Option<ConnectionError>

    ghost function Footprint(): set<object>
    {
      {this, tls, initialSpace, handshakeSpace, appdataSpace, pendingCrypto, cryptoRecvOffset}
    }

    /** The three spaces are different objects, and both tables have a row for each level. */
    ghost predicate Valid()
    {
      && initialSpace != handshakeSpace && initialSpace != appdataSpace && handshakeSpace != appdataSpace
      && pendingCrypto.Length == 3 && cryptoRecvOffset.Length == 3
      && pendingCrypto as object != cryptoRecvOffset as object
    }

    function Model(): C.Conn
      requires Valid()
      reads Footprint()
    {
      C.Conn(side, state, tls.Model(), version, dstCid, srcCid,
             C.Per(initialSpace.Model(), handshakeSpace.Model(), appdataSpace.Model()),
             C.Per(pendingCrypto[0], pendingCrypto[1], pendingCrypto[2]),
             C.Per(cryptoRecvOffset[0], cryptoRecvOffset[1], cryptoRecvOffset[2]),
             pendingAppData, receivedAppData, streamSendOffset, closeReason)
    }

    function SpaceOf(level: Level): (s: Space)
    {
      if level == INITIAL then initialSpace
      else if level == HANDSHAKE then handshakeSpace
      else appdataSpace
    }

    constructor (side: C.Side, state: C.State, tls: TlsConnection, version: U32, dst: Data, src: Data,
                 initial: Space, handshake: Space, appdata: Space,
                 crypto0: Data, crypto1: Data, helloLen: nat)
      requires initial != handshake && initial != appdata && handshake != appdata
      ensures Valid() && fresh(pendingCrypto) && fresh(cryptoRecvOffset)
      ensures this.tls == tls && initialSpace == initial && handshakeSpace == handshake
              && appdataSpace == appdata
      ensures Model() == C.Fresh(side, state, tls.Model(), version, dst, src).(
                           spaces := C.Per(initial.Model(), handshake.Model(), appdata.Model()),
                           pendingCrypto := C.Per(crypto0, crypto1, []),
                           cryptoRecvOffset := C.Per(helloLen, 0, 0))
    {
      this.side, this.state, this.tls := side, state, tls;
      this.version, dstCid, srcCid := version, dst, src;
      initialSpace, handshakeSpace, appdataSpace := initial, handshake, appdata;
      pendingCrypto := new Data[3](_ => []);
      cryptoRecvOffset := new nat[3](_ => 0);
      pendingAppData, receivedAppData, streamSendOffset, closeReason := [], [], 0, None;
      new;
      pendingCrypto[0], pendingCrypto[1] := crypto0, crypto1;
      cryptoRecvOffset[0] := helloLen;
    }

    // ---------------------------------------------------------- application data

    method SendData(data: Data)
      requires Valid()
      modifies this
      ensures Model() == C.SendData(old(Model()), data)
    {
      pendingAppData := pendingAppData + data;
    }

    /** Copies received data into the caller's buffer and forgets it. */
    method RecvData(buf: array<Byte>) returns (n: nat)
      requires Valid() && buf as object !in Footprint()
      modifies this, buf
      ensures var (c, data) := C.RecvData(old(Model()), buf.Length);
              Model() == c && n == |data| && n <= buf.Length && buf[..] == data + old(buf[..])[n..]
      ensures n == buf.Length || n == |old(receivedAppData)|
      ensures buf[..n] + receivedAppData == old(receivedAppData)
    {
      n := if |receivedAppData| < buf.Length then |receivedAppData| else buf.Length;
      Store(buf, 0, receivedAppData[..n]);
      receivedAppData := receivedAppData[n..];
    }

    // ---------------------------------------------------------- received frames

    /** Appends TLS output to what waits at its level. */
    method BufferCrypto(level: Level, data: Data)
      requires Valid()
      modifies pendingCrypto
      ensures Model() == C.Buffered(old(Model()), level, data)
    {
      pendingCrypto[level] := pendingCrypto[level] + data;
    }

    /** Installs keys in a space. */
    method InstallKeys(level: Level, keys: Keys)
      requires Valid()
      modifies SpaceOf(level)
      ensures Model() == C.WithKeys(old(Model()), level, keys)
    {
      SpaceOf(level).SetKeys(keys);
    }

    method AfterInitialKeys(keys: Keys)
      requires Valid()
      modifies Footprint()
      ensures Model() == C.AfterInitialKeys(old(Model()), keys)
    {
      hide C.Per.At, C.Per.With, WriteHs;
      if handshakeSpace.keys.None? {
        InstallKeys(HANDSHAKE, keys);
      }
      var data, more := tls.WriteHandshake(HANDSHAKE);
      BufferCrypto(HANDSHAKE, data);
      if more.Some? && appdataSpace.keys.None? {
        InstallKeys(APPDATA, more.value);
        state := C.Established;
      }
    }

    method AfterHandshakeKeys(keys: Keys)
      requires Valid()
      modifies Footprint()
      ensures Model() == C.AfterHandshakeKeys(old(Model()), keys)
    {
      hide C.Per.At, C.Per.With, WriteHs;
      if appdataSpace.keys.None? {
        InstallKeys(APPDATA, keys);
        state := C.Established;
      }
      var data, more := tls.WriteHandshake(APPDATA);
      BufferCrypto(APPDATA, data);
      if more.Some? {
        InstallKeys(APPDATA, more.value);
      }
    }

    method HandleCryptoOutput(data: Data, keys: Option<Keys>, level: Level)
      requires Valid()
      modifies Footprint()
      ensures Model() == C.CryptoOutput(old(Model()), data, keys, level)
    {
      hide C.AfterInitialKeys, C.AfterHandshakeKeys, C.Buffered;
      BufferCrypto(level, data);
      if keys.Some? {
        if level == INITIAL {
          AfterInitialKeys(keys.value);
        } else if level == HANDSHAKE {
          AfterHandshakeKeys(keys.value);
        }
      }
    }

    /** Feeds CRYPTO data that continues the stream to TLS; ignores any other. */
    method ProcessCrypto(level: Level, offset: nat, data: Data) returns (r: Outcome<ConnectionError>)
      requires Valid()
      modifies Footprint()
      ensures (Model(), r) == C.ProcessCrypto(old(Model()), level, offset, data)
    {
      hide C.CryptoOutput, ReadHs, WriteHs;
      var expected := cryptoRecvOffset[level];
      if offset == expected {
        var ok := tls.ReadHandshake(level, data);
        if !ok {
          return Fail(TlsFailed);
        }
        var out, keys := tls.WriteHandshake(level);
        HandleCryptoOutput(out, keys, level);
        cryptoRecvOffset[level] := cryptoRecvOffset[level] + |data|;
      }
      return Pass;
    }

    method ProcessFrame(level: Level, f: Frames.Frame) returns (r: Outcome<ConnectionError>)
      requires Valid()
      modifies Footprint()
      ensures (Model(), r) == C.ProcessFrame(old(Model()), level, f)
    {
      hide C.ProcessCrypto;
      r := Pass;
      match f
      case Crypto(offset, data) => r := ProcessCrypto(level, offset, data);
      case ConnectionClose(code, _, _) =>
        state := C.Closed;
        closeReason := Some(Transport(C.CloseCode(code)));
      case HandshakeDone =>
        if side == C.Client {
          state := C.Established;
        }
      case Stream(_, _, data, _) => receivedAppData := receivedAppData + data;
      case _ =>
    }

    /** Processes the frames of a packet in order, up to the first that TLS refuses. */
    method ProcessFrames(frames: seq<Frames.Frame>, level: Level) returns (r: Outcome<ConnectionError>)
      requires Valid()
      modifies Footprint()
      ensures (Model(), r) == C.ProcessFrames(old(Model()), level, frames)
    {
      hide C.ProcessFrame;
      for i := 0 to |frames|
        invariant C.ProcessFrames(Model(), level, frames[i..]) == C.ProcessFrames(old(Model()), level, frames)
      {
        ghost var before := Model();
        assert frames[i..][1..] == frames[i + 1..];
        r := ProcessFrame(level, frames[i]);
        if r.Fail? {
          return;
        }
      }
      return Pass;
    }

    // ---------------------------------------------------------- ingest

    /** Parses the header of a datagram, removes its protection and decrypts it. */
    method Receive(buf: Data) returns (r: Result<C.Arrival, ConnectionError>)
      requires Valid() && buf != [] && C.SampleThere(Model(), buf)
      ensures r == C.Receive(Model(), buf)
    {
      hide Open, OpenLong, ShortHeaderAt, LongHeaderAt, HasSample, PnOffsetLong;
      if buf[0] < 0x80 {
        var parsed := PacketCodec.ParseShortHeader(buf, |dstCid|);
        if parsed.Err? {
          return Err(BadPacket);
        }
        var pnOffset := 1 + |parsed.value.0.dstCid|;
        assert |parsed.value.0.dstCid| == |dstCid| by { PacketLaws.ShortHeaderImage(buf, |dstCid|); }
        var content := Sealing.DecryptAndParse(appdataSpace.keys, appdataSpace.largestRecvPn, buf, pnOffset);
        return C.Opened(APPDATA, content);
      } else {
        var parsed := PacketCodec.ParseLongHeader(buf);
        if parsed.Err? {
          return Err(BadPacket);
        }
        var h := parsed.value.0;
        if h.ty == Retry || h.ty == VersionNegotiation {
          return Err(Transport(PROTOCOL_VIOLATION));
        }
        var level := C.LevelOf(h.ty);
        var content := Sealing.DecryptAndParseLong(SpaceOf(level).keys, buf, PnOffsetLong(h));
        return C.Opened(level, content);
      }
    }

    /** Feeds one datagram into the connection. */
    method Ingest(buf: Data) returns (r: Result<nat, ConnectionError>)
      requires Valid() && C.SampleThere(Model(), buf)
      modifies Footprint()
      ensures (Model(), r) == C.Ingest(old(Model()), buf)
    {
      hide C.Receive, C.SampleThere, C.ProcessFrames;
      if state == C.Closed {
        return Err(ClosedAlready);
      }
      if buf == [] {
        return Ok(0);
      }
      var arrival :- Receive(buf);
      SpaceOf(arrival.level).RecordRecvPn(arrival.pn);
      var processed := ProcessFrames(arrival.frames, arrival.level);
      if processed.Fail? {
        return Err(processed.error);
      }
      return Ok(|buf|);
    }

    // ---------------------------------------------------------- egest

    /** Takes the CRYPTO bytes and the ACKs of a level. */
    method TakeHandshakeFrames(level: Level) returns (frames: seq<Frames.Frame>)
      requires Valid()
      modifies Footprint()
      ensures frames == C.CryptoPart(old(Model()), level) + C.AckPart(old(Model()), level)
      ensures Model() == Unburdened(old(Model()), level)
    {
      hide C.Max, C.AckFor;
      frames := [];
      var crypto := pendingCrypto[level];
      pendingCrypto[level] := [];
      if crypto != [] {
        frames := frames + [Frames.Crypto(0, crypto)];
      }
      var acks := SpaceOf(level).TakePendingAcks();
      if acks != [] {
        frames := frames + [C.AckFor(acks)];
      }
    }

    /** Takes everything that waits at a level: CRYPTO bytes, ACKs, HANDSHAKE_DONE and stream
        data. */
    method TakeFrames(level: Level) returns (frames: seq<Frames.Frame>)
      requires Valid()
      modifies Footprint()
      ensures frames == C.Waiting(old(Model()), level)
      ensures Model() == Emptied(old(Model()), level)
    {
      hide C.CryptoPart, C.AckPart, C.Per.At, C.Per.With;
      ghost var c := Model();
      var wasState := state;
      frames := TakeHandshakeFrames(level);
      if level == APPDATA && side == C.Server && wasState == C.Handshaking {
        frames := frames + [Frames.HandshakeDone];
        state := C.Established;
      }
      assert frames == C.CryptoPart(c, level) + C.AckPart(c, level) + C.DonePart(c, level);
      if level == APPDATA && wasState == C.Established && pendingAppData != [] {
        frames := frames + [Frames.Stream(0, streamSendOffset, pendingAppData, false)];
        streamSendOffset := streamSendOffset + |pendingAppData|;
        pendingAppData := [];
      }
    }

    /** Frames what waits at a level and seals it; nothing happens without keys or frames. */
    method MakePacket(level: Level) returns (r: Result<Option<Data>, ConnectionError>)
      requires Valid()
      modifies Footprint()
      ensures !C.Ready(old(Model()), level) ==> r == Ok(None) && Model() == old(Model())
      ensures C.Ready(old(Model()), level) ==>
                var (c, out) := C.DepartAt(old(Model()), level);
                Model() == c && r == if out.Sent? then Ok(Some(out.packet)) else Err(out.error)
    {
      hide C.Waiting, SealPacket;
      ghost var c := Model();
      var space := SpaceOf(level);
      if space.keys.None? {
        return Ok(None);
      }
      var wasEstablished := state == C.Established;
      var frames := TakeFrames(level);
      NothingTaken(c, level);
      AcksWritable(c, level);
      if frames == [] {
        return Ok(None);
      }
      var pn := space.NextSendPn();
      Numbered(c, level);
      var packet :- Sealing.EncryptPacket(space.keys, level, version, dstCid, srcCid, frames, pn,
                                          EncodedPnLen(pn), wasEstablished);
      return Ok(Some(packet));
    }

    /** Produces the next outgoing packet: tries the spaces in order of level. */
    method Egest(buf: array<Byte>) returns (r: Result<nat, ConnectionError>)
      requires Valid() && buf as object !in Footprint()
      modifies Footprint(), buf
      ensures var (c, out) := C.Egest(old(Model()), buf.Length);
              && Model() == c
              && r == (if out.Ok? then Ok(|out.value|) else Err(out.error))
              && (out.Ok? ==> |out.value| <= buf.Length
                              && buf[..] == out.value + old(buf[..])[|out.value|..])
              && (out.Err? ==> buf[..] == old(buf[..]))
    {
      hide C.Ready, C.Sealing, C.Waiting, C.Taken;
      if state == C.Closed {
        return Err(ClosedAlready);
      }
      for i := 0 to 3
        invariant Model() == old(Model()) && buf[..] == old(buf[..])
        invariant forall l: Level :: l < i ==> !C.Ready(Model(), l)
      {
        var level: Level := i;
        var packet :- MakePacket(level);
        if packet.Some? {
          var len := |packet.value|;
          if buf.Length < len {
            return Ok(0);
          }
          Store(buf, 0, packet.value);
          return Ok(len);
        }
      }
      return Ok(0);
    }

    // ---------------------------------------------------------- drain loop

    /** Sends packets until `egest` has none: `flush_egress` of `runtime.rs`. */
    method FlushEgress(buf: array<Byte>) returns (sent: seq<Data>, r: Outcome<ConnectionError>)
      requires Valid() && buf as object !in Footprint()
      modifies Footprint(), buf
      ensures (Model(), sent, r) == Egress.Flush(old(Model()), buf.Length)
    {
      hide C.Egest, Egress.Flush;
      ghost var goal := Egress.Flush(Model(), buf.Length);
      sent := [];
      assert [] + goal.1 == goal.1;
      while true
        invariant goal == After(sent, Egress.Flush(Model(), buf.Length))
        decreases Egress.Left(Model())
      {
        ghost var c := Model();
        var n := Egest(buf);
        Egress.FlushStep(c, buf.Length);
        assert sent + [] == sent;
        if n.Err? {
          assert C.Egest(c, buf.Length).1.error == n.error;
          return sent, Fail(n.error);
        }
        if n.value == 0 {
          return sent, Pass;
        }
        Egress.EachCallLess(c, buf.Length);
        var packet := buf[..n.value];
        ghost var rest := Egress.Flush(Model(), buf.Length).1;
        assert sent + ([packet] + rest) == sent + [packet] + rest;
        sent := sent + [packet];
      }
    }

    // ---------------------------------------------------------- connect and accept

    /** A client and its first packet. The connection IDs are random, and the Initial keys are
        derived from them, outside this model. */
    static method Connect(oracle: Oracle, keys: Keys, dst: Data, src: Data)
      returns (r: Result<(Connection, Data), ConnectionError>)
      ensures match C.Connect(oracle, keys, dst, src)
              case Err(e) => r == Err(e)
              case Ok((c, packet)) =>
                r.Ok? && fresh(r.value.0) && r.value.0.Valid() && fresh(r.value.0.Footprint())
                && r.value.0.Model() == c && r.value.1 == packet
    {
      hide FirstInitial, WriteHs, C.Per.With, C.Fresh;
      var tls := new TlsConnection(oracle);
      var hello, _ := tls.WriteHandshake(INITIAL);
      var packet :- Sealing.BuildInitialPacket(keys, dst, src, hello);
      var initial := new Space();
      initial.SetKeys(keys);
      var _ := initial.NextSendPn();
      var handshake := new Space();
      var appdata := new Space();
      var c := new Connection(C.Client, C.Connecting, tls, VERSION_1, dst, src,
                              initial, handshake, appdata, [], [], 0);
      ClientShape(tls.Model(), dst, src, keys);
      return Ok((c, packet));
    }

    /** The ClientHello: all CRYPTO data at offset 0. */
    static method ExtractHello(frames: seq<Frames.Frame>) returns (hello: Data)
      ensures hello == C.HelloIn(frames)
    {
      hide C.HelloIn;
      hello := [];
      assert frames[0..] == frames;
      for i := 0 to |frames|
        invariant hello + C.HelloIn(frames[i..]) == C.HelloIn(frames)
      {
        HelloStep(frames, i);
        ghost var rest := C.HelloIn(frames[i + 1..]);
        if frames[i].Crypto? && frames[i].offset == 0 {
          assert hello + (frames[i].data + rest) == hello + frames[i].data + rest;
          hello := hello + frames[i].data;
        } else {
          assert hello + ([] + rest) == hello + rest;
        }
      }
      assert C.HelloIn(frames[|frames|..]) == [] by { NoHello(frames[|frames|..]); }
    }

    /** A server from a client's first packet. */
    static method Accept(packet: Data, oracle: Oracle, serverKeys: Data -> Keys)
      returns (r: Result<Connection, ConnectionError>)
      ensures match C.Accept(packet, oracle, serverKeys)
              case Err(e) => r == Err(e)
              case Ok(c) =>
                r.Ok? && fresh(r.value) && r.value.Valid() && fresh(r.value.Footprint())
                && r.value.Model() == c
    {
      hide OpenLong, LongHeaderAt, PnOffsetLong, C.HelloIn, ReadHs, C.ServerHello, C.Recorded;
      var parsed := PacketCodec.ParseLongHeader(packet);
      if parsed.Err? {
        return Err(BadPacket);
      }
      var h := parsed.value.0;
      var keys := serverKeys(h.dstCid);
      var content := Sealing.DecryptAndParseLong(Some(keys), packet, PnOffsetLong(h));
      if content.Err? {
        return Err(content.error);
      }
      var hello := ExtractHello(content.value.1);
      var tls := new TlsConnection(oracle);
      var ok := tls.ReadHandshake(INITIAL, hello);
      if !ok {
        return Err(TlsFailed);
      }
      var c := Answer(tls, h.version, h.srcCid, h.dstCid, keys, |hello|);
      return Ok(c);
    }

    /** The server's first output, and its state with the client's packet counted as number 0. */
    static method Answer(tls: TlsConnection, version: U32, dst: Data, src: Data, keys: Keys, helloLen: nat)
      returns (c: Connection)
      modifies tls
      ensures fresh(c) && c.Valid() && fresh(c.Footprint() - {tls}) && c.tls == tls
      ensures c.Model()
           == Handshakes.Answered(
                C.WithKeys(C.Fresh(C.Server, C.Handshaking, old(tls.Model()), version, dst, src), INITIAL, keys),
                helloLen)
    {
      hide WriteHs, Handshakes.Answered, C.WithKeys, C.Recorded;
      Handshakes.AnsweredShape(tls.Model(), version, dst, src, keys, helloLen);
      var crypto0, handshakeKeys := tls.WriteHandshake(INITIAL);
      var crypto1: Data := [];
      var initial := new Space();
      initial.SetKeys(keys);
      var handshake := new Space();
      var appdata := new Space();
      if handshakeKeys.Some? {
        handshake.SetKeys(handshakeKeys.value);
        var data, oneRttKeys := tls.WriteHandshake(HANDSHAKE);
        crypto1 := data;
        if oneRttKeys.Some? {
          appdata.SetKeys(oneRttKeys.value);
        }
      }
      initial.RecordRecvPn(0);
      c := new Connection(C.Server, C.Handshaking, tls, version, dst, src,
                          initial, handshake, appdata, crypto0, crypto1, helloLen);
    }
  }

  /** A new client, field by field. */
  lemma ClientShape(tls: Session, dst: Data, src: Data, keys: Keys)
    ensures var c := C.Fresh(C.Client, C.Connecting, tls, VERSION_1, dst, src);
            c.(spaces := c.spaces.With(INITIAL, C.Space(Some(keys), 1, 0, [])))
            == c.(spaces := C.Per(C.Space(Some(keys), 1, 0, []), C.NEW_SPACE, C.NEW_SPACE),
                  pendingCrypto := C.Per([], [], []), cryptoRecvOffset := C.Per(0, 0, 0))
  {
  }

  /** The result of a drain loop that had already sent some packets. */
  ghost function After(sent: seq<Data>, rest: (C.Conn, seq<Data>, Outcome<ConnectionError>))
    : (C.Conn, seq<Data>, Outcome<ConnectionError>)
  {
    (rest.0, sent + rest.1, rest.2)
  }

  ghost function Unburdened(c: C.Conn, level: Level): C.Conn
  {
    c.(spaces := c.spaces.With(level, c.spaces.At(level).(pendingAcks := [])),
       pendingCrypto := c.pendingCrypto.With(level, []))
  }

  /** A connection whose frames of a level were taken, before a packet number is used. */
  ghost function Emptied(c: C.Conn, level: Level): C.Conn
  {
    C.Taken(c, level).(spaces := c.spaces.With(level, c.spaces.At(level).(pendingAcks := [])))
  }

  /** Taking no frames changes nothing. */
  lemma NothingTaken(c: C.Conn, level: Level)
    ensures C.Waiting(c, level) == [] ==> Emptied(c, level) == c
  {
    Lifecycle.NothingWaits(c, level);
    hide C.Waiting;
  }

  lemma AcksWritable(c: C.Conn, level: Level)
    ensures forall f :: f in C.Waiting(c, level) && f.Ack? ==> f.ranges != []
  {
    hide C.Max;
  }

  lemma Numbered(c: C.Conn, level: Level)
    ensures var e := Emptied(c, level);
            var s := e.spaces.At(level);
            && s.nextSendPn == c.spaces.At(level).nextSendPn && s.keys == c.spaces.At(level).keys
            && e.(spaces := e.spaces.With(level, s.(nextSendPn := s.nextSendPn + 1))) == C.Taken(c, level)
  {
  }

  lemma HelloStep(frames: seq<Frames.Frame>, i: nat)
    requires i < |frames|
    ensures C.HelloIn(frames[i..])
         == (if frames[i].Crypto? && frames[i].offset == 0 then frames[i].data else [])
            + C.HelloIn(frames[i + 1..])
  {
    assert frames[i..][1..] == frames[i + 1..];
  }

  lemma NoHello(frames: seq<Frames.Frame>)
    requires frames == []
    ensures C.HelloIn(frames) == []
  {
  }
}
