/**
 The connection of `connection.rs` as a state and its transitions: what `connect`, `accept`,
 `ingest`, `egest`, `send_data` and `recv_data` do, step for step.
 */
module Connections {
  import opened Wrappers
  import opened Bytes
  import opened Packets
  import opened Protection
  import opened Tls
  import Frames

  datatype Side = Client | Server

  datatype State = Connecting | Handshaking | Established | Closed

  /** One value per packet number space. */
  datatype Per<T> = Per(initial: T, handshake: T, appdata: T) {
    function At(level: Level): T
    {
      if level == INITIAL then initial else if level == HANDSHAKE then handshake else appdata
    }

    function With(level: Level, v: T): (p: Per<T>)
      ensures forall l: Level :: p.At(l) == if l == level then v else At(l)
    {
      if level == INITIAL then this.(initial := v)
      else if level == HANDSHAKE then this.(handshake := v)
      else this.(appdata := v)
    }
  }

  /** Keys and packet numbers of one space (section 12.3 of RFC 9000). */
  datatype Space = Space(
    keys: Option<Keys>,
    nextSendPn: nat,
    largestRecvPn: nat,
    pendingAcks: seq<nat>)

  const NEW_SPACE: Space := Space(None, 0, 0, [])

  function Recorded(s: Space, pn: nat): Space
  {
    s.(largestRecvPn := if pn > s.largestRecvPn then pn else s.largestRecvPn,
       pendingAcks := s.pendingAcks + [pn])
  }

  datatype Conn = Conn(
    side: Side,
    state: State,
    tls: Session,
    version: U32,
    dstCid: Data,
    srcCid: Data,
    spaces: Per<Space>,
    pendingCrypto: Per<Data>,
    cryptoRecvOffset: Per<nat>,
    pendingAppData: Data,
    receivedAppData: Data,
    streamSendOffset: nat,
    closeReason: Option<ConnectionError>)

  // ------------------------------------------------------------ TLS output

  function KeysOf(kc: Option<KeyChange>): Option<Keys>
  {
    if kc.Some? then Some(kc.value.keys) else None
  }

  function Buffered(c: Conn, level: Level, data: Data): Conn
  {
    c.(pendingCrypto := c.pendingCrypto.With(level, c.pendingCrypto.At(level) + data))
  }

  function WithKeys(c: Conn, level: Level, keys: Keys): Conn
  {
    c.(spaces := c.spaces.With(level, c.spaces.At(level).(keys := Some(keys))))
  }

  /** The handshake keys are installed once, and TLS is asked for Handshake-level output, which
      may come with the 1-RTT keys. */
  function AfterInitialKeys(c: Conn, keys: Keys): Conn
  {
    var c1 := if c.spaces.handshake.keys.Some? then c else WithKeys(c, HANDSHAKE, keys);
    var (tls, data, kc) := WriteHs(c1.tls, HANDSHAKE);
    var c2 := Buffered(c1.(tls := tls), HANDSHAKE, data);
    if kc.Some? && c2.spaces.appdata.keys.None?
    then WithKeys(c2, APPDATA, kc.value.keys).(state := Established)
    else c2
  }

  /** The 1-RTT keys are installed, and TLS is asked for more output. Keys that come with that
      output replace the ones just installed. */
  function AfterHandshakeKeys(c: Conn, keys: Keys): Conn
  {
    var c1 := if c.spaces.appdata.keys.Some? then c
              else WithKeys(c, APPDATA, keys).(state := Established);
    var (tls, data, kc) := WriteHs(c1.tls, APPDATA);
    var c2 := Buffered(c1.(tls := tls), APPDATA, data);
    if kc.Some? then WithKeys(c2, APPDATA, kc.value.keys) else c2
  }

  function CryptoOutput(c: Conn, data: Data, keys: Option<Keys>, level: Level): Conn
  {
    var c1 := Buffered(c, level, data);
    if keys.None? then c1
    else if level == INITIAL then AfterInitialKeys(c1, keys.value)
    else if level == HANDSHAKE then AfterHandshakeKeys(c1, keys.value)
    else c1
  }

  // ------------------------------------------------------------ frames

  /** The error code a peer closed with; unknown codes count as internal errors. */
  function CloseCode(code: nat): nat
  {
    if code <= 0x11 || 0x100 <= code <= 0x1ff then code else INTERNAL_ERROR
  }

  /** CRYPTO data that continues the stream goes to TLS; anything else is ignored. */
  function ProcessCrypto(c: Conn, level: Level, offset: nat, data: Data)
    : (Conn, Outcome<ConnectionError>)
  {
    if offset != c.cryptoRecvOffset.At(level) then (c, Pass)
    else
      var (tls1, ok) := ReadHs(c.tls, level, data);
      if !ok then (c.(tls := tls1), Fail(TlsFailed))
      else
        var (tls2, out, kc) := WriteHs(tls1, level);
        var c2 := CryptoOutput(c.(tls := tls2), out, KeysOf(kc), level);
        (c2.(cryptoRecvOffset :=
               c2.cryptoRecvOffset.With(level, c2.cryptoRecvOffset.At(level) + |data|)), Pass)
  }

  function ProcessFrame(c: Conn, level: Level, f: Frames.Frame): (Conn, Outcome<ConnectionError>)
  {
    match f
    case Crypto(offset, data) => ProcessCrypto(c, level, offset, data)
    case ConnectionClose(code, _, _) =>
      (c.(state := Closed, closeReason := Some(Transport(CloseCode(code)))), Pass)
    case HandshakeDone => (if c.side == Client then c.(state := Established) else c, Pass)
    case Stream(_, _, data, _) => (c.(receivedAppData := c.receivedAppData + data), Pass)
    case _ => (c, Pass)
  }

  /** The frames of a packet in order, up to the first that TLS refuses. */
  function ProcessFrames(c: Conn, level: Level, fs: seq<Frames.Frame>): (Conn, Outcome<ConnectionError>)
    decreases |fs|
  {
    if fs == [] then (c, Pass)
    else
      var (c1, r) := ProcessFrame(c, level, fs[0]);
      if r.Fail? then (c1, r) else ProcessFrames(c1, level, fs[1..])
  }

  // ------------------------------------------------------------ ingest

  datatype Arrival = Arrival(level: Level, pn: nat, frames: seq<Frames.Frame>)

  function LevelOf(ty: LongType): Level
  {
    if ty == Initial then INITIAL else if ty == Handshake then HANDSHAKE else APPDATA
  }

  function Opened(level: Level, r: Result<(nat, seq<Frames.Frame>), ConnectionError>)
    : Result<Arrival, ConnectionError>
  {
    match r
    case Err(e) => Err(e)
    case Ok((pn, frames)) => Ok(Arrival(level, pn, frames))
  }

  /** The short receive path slices the sample unchecked: it must be there when the header was
      accepted and there are keys to try. */
  predicate SampleThere(c: Conn, buf: Data)
  {
    buf != [] && buf[0] < 0x80 && ShortHeaderAt(buf, |c.dstCid|).Ok? && c.spaces.appdata.keys.Some? ==>
      HasSample(c.spaces.appdata.keys.value.remote, buf, 1 + |c.dstCid|)
  }

  /** Parses, unprotects and decrypts one datagram. */
  function Receive(c: Conn, buf: Data): (r: Result<Arrival, ConnectionError>)
    requires buf != [] && SampleThere(c, buf)
  {
    if buf[0] < 0x80 then
      match ShortHeaderAt(buf, |c.dstCid|)
      case Err(_) => Err(BadPacket)
      case Ok((h, _)) =>
        if c.spaces.appdata.keys.None? then Err(Transport(INTERNAL_ERROR))
        else
          Opened(APPDATA, Open(c.spaces.appdata.keys.value.remote, false,
                               c.spaces.appdata.largestRecvPn, buf, 1 + |c.dstCid|))
    else
      match LongHeaderAt(buf)
      case Err(_) => Err(BadPacket)
      case Ok((h, _)) =>
        if h.ty == Retry || h.ty == VersionNegotiation then Err(Transport(PROTOCOL_VIOLATION))
        else
          var level := LevelOf(h.ty);
          if c.spaces.At(level).keys.None? then Err(Transport(INTERNAL_ERROR))
          else Opened(level, OpenLong(c.spaces.At(level).keys.value.remote, buf, PnOffsetLong(h)))
  }

  function Arrived(c: Conn, a: Arrival): (Conn, Outcome<ConnectionError>)
  {
    ProcessFrames(c.(spaces := c.spaces.With(a.level, Recorded(c.spaces.At(a.level), a.pn))),
                  a.level, a.frames)
  }

  function Ingest(c: Conn, buf: Data): (r: (Conn, Result<nat, ConnectionError>))
    requires SampleThere(c, buf)
  {
    if c.state == Closed then (c, Err(ClosedAlready))
    else if buf == [] then (c, Ok(0))
    else
      match Receive(c, buf)
      case Err(e) => (c, Err(e))
      case Ok(a) =>
        var (c1, r) := Arrived(c, a);
        (c1, if r.Fail? then Err(r.error) else Ok(|buf|))
  }

  // ------------------------------------------------------------ egest

  function Max(s: seq<nat>): (m: nat)
    requires s != []
    ensures m in s && forall x :: x in s ==> x <= m
  {
    if |s| == 1 then s[0]
    else
      var m := Max(s[1..]);
      assert s == [s[0]] + s[1..];
      if s[0] > m then s[0] else m
  }

  /** One range from the largest number down, as long as the pending list. */
  function AckFor(acks: seq<nat>): Frames.Frame
    requires acks != []
  {
    Frames.Ack(Max(acks), 0, [Frames.AckRange(0, |acks| - 1)], None)
  }

  function CryptoPart(c: Conn, level: Level): seq<Frames.Frame>
  {
    if c.pendingCrypto.At(level) == [] then [] else [Frames.Crypto(0, c.pendingCrypto.At(level))]
  }

  function AckPart(c: Conn, level: Level): seq<Frames.Frame>
  {
    if c.spaces.At(level).pendingAcks == [] then [] else [AckFor(c.spaces.At(level).pendingAcks)]
  }

  predicate Finishing(c: Conn, level: Level)
  {
    level == APPDATA && c.side == Server && c.state == Handshaking
  }

  function DonePart(c: Conn, level: Level): seq<Frames.Frame>
  {
    if Finishing(c, level) then [Frames.HandshakeDone] else []
  }

  predicate Streaming(c: Conn, level: Level)
  {
    level == APPDATA && c.state == Established && c.pendingAppData != []
  }

  function StreamPart(c: Conn, level: Level): seq<Frames.Frame>
  {
    if Streaming(c, level) then [Frames.Stream(0, c.streamSendOffset, c.pendingAppData, false)]
    else []
  }

  /** The frames that wait at a level. */
  function Waiting(c: Conn, level: Level): seq<Frames.Frame>
  {
    CryptoPart(c, level) + AckPart(c, level) + DonePart(c, level) + StreamPart(c, level)
  }

  /** The state once those frames are taken and a packet number is used. */
  function Taken(c: Conn, level: Level): Conn
  {
    var s := c.spaces.At(level);
    c.(spaces := c.spaces.With(level, s.(pendingAcks := [], nextSendPn := s.nextSendPn + 1)),
       pendingCrypto := c.pendingCrypto.With(level, []),
       state := if Finishing(c, level) then Established else c.state,
       pendingAppData := if Streaming(c, level) then [] else c.pendingAppData,
       streamSendOffset := c.streamSendOffset
                           + (if Streaming(c, level) then |c.pendingAppData| else 0))
  }

  predicate Ready(c: Conn, level: Level)
  {
    c.spaces.At(level).keys.Some? && Waiting(c, level) != []
  }

  /** What became of the frames that were taken: they left in a packet, or could not be sealed. */
  datatype Departure =
    | Idle
    | Sent(level: Level, pn: nat, frames: seq<Frames.Frame>, packet: Data)
    | Lost(level: Level, pn: nat, frames: seq<Frames.Frame>, error: ConnectionError)

  /** Sealing the frames that wait at a level. Whether the connection was established is looked
      at before they are taken. */
  function Sealing(c: Conn, level: Level): Result<Data, ConnectionError>
    requires c.spaces.At(level).keys.Some?
  {
    var pn := c.spaces.At(level).nextSendPn;
    SealPacket(c.spaces.At(level).keys.value.local, level, c.version, c.dstCid, c.srcCid,
               Waiting(c, level), pn, EncodedPnLen(pn), c.state == Established)
  }

  function DepartAt(c: Conn, level: Level): (Conn, Departure)
    requires c.spaces.At(level).keys.Some?
  {
    var pn, frames := c.spaces.At(level).nextSendPn, Waiting(c, level);
    (Taken(c, level),
     match Sealing(c, level)
     case Err(e) => Lost(level, pn, frames, e)
     case Ok(packet) => Sent(level, pn, frames, packet))
  }

  /** The next packet: the first space in order of level that has keys and something to say. */
  function Depart(c: Conn): (Conn, Departure)
  {
    if Ready(c, INITIAL) then DepartAt(c, INITIAL)
    else if Ready(c, HANDSHAKE) then DepartAt(c, HANDSHAKE)
    else if Ready(c, APPDATA) then DepartAt(c, APPDATA)
    else (c, Idle)
  }

  /** `egest` into a buffer of `cap` bytes: what does not fit is dropped, not kept. */
  function Egest(c: Conn, cap: nat): (Conn, Result<Data, ConnectionError>)
  {
    if c.state == Closed then (c, Err(ClosedAlready))
    else
      match Depart(c)
      case (c1, Idle) => (c1, Ok([]))
      case (c1, Lost(_, _, _, e)) => (c1, Err(e))
      case (c1, Sent(_, _, _, packet)) => (c1, Ok(if |packet| <= cap then packet else []))
  }

  // ------------------------------------------------------------ application data

  function SendData(c: Conn, data: Data): Conn
  {
    c.(pendingAppData := c.pendingAppData + data)
  }

  function RecvData(c: Conn, cap: nat): (Conn, Data)
  {
    var n := if |c.receivedAppData| < cap then |c.receivedAppData| else cap;
    (c.(receivedAppData := c.receivedAppData[n..]), c.receivedAppData[..n])
  }

  // ------------------------------------------------------------ connect and accept

  function Fresh(side: Side, state: State, tls: Session, version: U32, dst: Data, src: Data): Conn
  {
    Conn(side, state, tls, version, dst, src, Per(NEW_SPACE, NEW_SPACE, NEW_SPACE),
         Per([], [], []), Per(0, 0, 0), [], [], 0, None)
  }

  /** A client: TLS writes its ClientHello, which leaves at once in an Initial that uses packet
      number 0. Connection IDs and Initial keys are chosen by the caller. */
  function Connect(oracle: Oracle, keys: Keys, dst: Data, src: Data)
    : (r: Result<(Conn, Data), ConnectionError>)
  {
    var (tls, hello, _) := WriteHs(Session(oracle, []), INITIAL);
    match FirstInitial(keys.local, dst, src, hello)
    case Err(e) => Err(e)
    case Ok(packet) =>
      var c := Fresh(Client, Connecting, tls, VERSION_1, dst, src);
      Ok((c.(spaces := c.spaces.With(INITIAL, Space(Some(keys), 1, 0, []))), packet))
  }

  /** The CRYPTO data at offset 0 in a frame list. */
  function HelloIn(fs: seq<Frames.Frame>): Data
  {
    if fs == [] then []
    else (if fs[0].Crypto? && fs[0].offset == 0 then fs[0].data else []) + HelloIn(fs[1..])
  }

  /** What the server's first two calls of `write_hs` leave behind. */
  function ServerHello(c: Conn): Conn
  {
    var (tls1, data1, kc1) := WriteHs(c.tls, INITIAL);
    var c1 := Buffered(c.(tls := tls1), INITIAL, data1);
    if kc1.None? then c1
    else
      var c2 := WithKeys(c1, HANDSHAKE, kc1.value.keys);
      var (tls2, data2, kc2) := WriteHs(c2.tls, HANDSHAKE);
      var c3 := Buffered(c2.(tls := tls2), HANDSHAKE, data2);
      if kc2.None? then c3 else WithKeys(c3, APPDATA, kc2.value.keys)
  }

  /** A server from a client's first datagram: the ClientHello goes to TLS, and the packet
      counts as number 0. */
  function Accept(packet: Data, oracle: Oracle, serverKeys: Data -> Keys)
    : (r: Result<Conn, ConnectionError>)
  {
    match LongHeaderAt(packet)
    case Err(_) => Err(BadPacket)
    case Ok((h, _)) =>
      var keys := serverKeys(h.dstCid);
      match OpenLong(keys.remote, packet, PnOffsetLong(h))
      case Err(e) => Err(e)
      case Ok((_, frames)) =>
        var hello := HelloIn(frames);
        var (tls, ok) := ReadHs(Session(oracle, []), INITIAL, hello);
        if !ok then Err(TlsFailed)
        else
          var c := Fresh(Server, Handshaking, tls, h.version, h.srcCid, h.dstCid);
          var c1 := ServerHello(WithKeys(c, INITIAL, keys));
          Ok(c1.(spaces := c1.spaces.With(INITIAL, Recorded(c1.spaces.initial, 0)),
                 cryptoRecvOffset := Per(|hello|, 0, 0)))
  }
}
