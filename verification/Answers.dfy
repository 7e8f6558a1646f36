/**
 What the calls on a connection answer, in plain terms: which bytes `recv_data` hands out, what
 `ingest` and `egest` return and when, and what a packet that leaves is made of.
 */
module Answers {
  import opened Wrappers
  import opened Bytes
  import opened Packets
  import opened Protection
  import opened Tls
  import opened Connections
  import Frames
  import HeaderFormat

  // ------------------------------------------------------------ reading application data

  /** A read hands out as many bytes as there are and fit, from the front, forgets exactly those,
      and changes nothing else. */
  lemma ReadTakesFront(c: Conn, cap: nat)
    ensures var (d, data) := RecvData(c, cap);
            && (|data| == cap || |data| == |c.receivedAppData|)
            && |data| <= cap && |data| <= |c.receivedAppData|
            && data + d.receivedAppData == c.receivedAppData
            && d == c.(receivedAppData := d.receivedAppData)
  {
  }

  /** Reads one after the other, with buffers of these sizes: the state after them, and the bytes
      they returned. */
  function ReadAll(c: Conn, caps: seq<nat>): (Conn, Data)
    decreases |caps|
  {
    if caps == [] then (c, [])
    else
      var (d, data) := RecvData(c, caps[0]);
      var (e, more) := ReadAll(d, caps[1..]);
      (e, data + more)
  }

  function Sum(caps: seq<nat>): nat
  {
    if caps == [] then 0 else caps[0] + Sum(caps[1..])
  }

  /** However the buffers are cut, reading returns the received bytes in order, each once, as many
      as there is room for. */
  lemma {:induction false} ReadsInOrder(c: Conn, caps: seq<nat>)
    ensures var (d, data) := ReadAll(c, caps);
            && data + d.receivedAppData == c.receivedAppData
            && (|data| == Sum(caps) || d.receivedAppData == []) && |data| <= Sum(caps)
            && d == c.(receivedAppData := d.receivedAppData)
    decreases |caps|
  {
    hide RecvData;
    if caps == [] {
      assert [] + c.receivedAppData == c.receivedAppData;
    } else {
      var (d, data) := RecvData(c, caps[0]);
      ReadTakesFront(c, caps[0]);
      ReadsInOrder(d, caps[1..]);
      var (e, more) := ReadAll(d, caps[1..]);
      assert data + (more + e.receivedAppData) == data + more + e.receivedAppData;
    }
  }

  lemma {:induction false} SumOfPositive(caps: seq<nat>)
    requires forall i :: 0 <= i < |caps| ==> caps[i] > 0
    ensures Sum(caps) >= |caps|
  {
    if caps != [] {
      SumOfPositive(caps[1..]);
    }
  }

  /** Enough reads into any non-empty buffers return everything that was received. */
  lemma EverythingRead(c: Conn, caps: seq<nat>)
    requires (forall i :: 0 <= i < |caps| ==> caps[i] > 0) && |caps| >= |c.receivedAppData|
    ensures ReadAll(c, caps) == (c.(receivedAppData := []), c.receivedAppData)
  {
    hide ReadAll, Sum;
    SumOfPositive(caps);
    ReadsInOrder(c, caps);
    var (d, data) := ReadAll(c, caps);
    assert d.receivedAppData == [];
    assert data + [] == data;
  }

  // ------------------------------------------------------------ ingest

  /** What `ingest` returns for a datagram: nothing is done on a closed connection or for an empty
      datagram; one that is not received leaves the connection alone; otherwise all of it counts as
      consumed, unless TLS refuses one of its frames. */
  lemma IngestAnswers(c: Conn, buf: Data)
    requires SampleThere(c, buf)
    ensures c.state == State.Closed ==> Ingest(c, buf) == (c, Err(ClosedAlready))
    ensures c.state != State.Closed && buf == [] ==> Ingest(c, buf) == (c, Ok(0))
    ensures c.state != State.Closed && buf != [] ==>
              && (Receive(c, buf).Err? ==> Ingest(c, buf) == (c, Err(Receive(c, buf).error)))
              && (Receive(c, buf).Ok? ==>
                    (Ingest(c, buf).1 == Ok(|buf|) || Ingest(c, buf).1 == Err(TlsFailed)))
  {
    hide Receive, SampleThere;
    if c.state != State.Closed && buf != [] && Receive(c, buf).Ok? {
      var a := Receive(c, buf).value;
      OnlyTlsRefuses(c.(spaces := c.spaces.With(a.level, Recorded(c.spaces.At(a.level), a.pn))), a.level, a.frames);
    }
  }

  /** What is left behind by a datagram that was received: its number is recorded, and its frames
      are processed, up to one that TLS refuses; neither is taken back when one is. */
  lemma IngestLeaves(c: Conn, buf: Data)
    requires c.state != State.Closed && buf != [] && SampleThere(c, buf) && Receive(c, buf).Ok?
    ensures var a := Receive(c, buf).value;
            var recorded := c.(spaces := c.spaces.With(a.level, Recorded(c.spaces.At(a.level), a.pn)));
            && Ingest(c, buf).0 == ProcessFrames(recorded, a.level, a.frames).0
            && (Ingest(c, buf).1.Ok? <==> ProcessFrames(recorded, a.level, a.frames).1.Pass?)
  {
    hide Receive, SampleThere, ProcessFrames;
  }

  /** A list of frames is processed one after the other, and nothing behind a refused one. */
  lemma {:induction false} FramesInOrder(c: Conn, level: Level, fs: seq<Frames.Frame>, gs: seq<Frames.Frame>)
    ensures ProcessFrames(c, level, []) == (c, Pass)
    ensures forall f: Frames.Frame :: ProcessFrames(c, level, [f]) == ProcessFrame(c, level, f)
    ensures var (d, r) := ProcessFrames(c, level, fs);
            ProcessFrames(c, level, fs + gs) == if r.Fail? then (d, r) else ProcessFrames(d, level, gs)
    decreases |fs|
  {
    hide ProcessFrame;
    assert forall f: Frames.Frame :: [f][1..] == [];
    assert forall d: Conn :: ProcessFrames(d, level, []) == (d, Pass);
    if fs == [] {
      assert fs + gs == gs;
    } else {
      assert (fs + gs)[1..] == fs[1..] + gs;
      FramesInOrder(ProcessFrame(c, level, fs[0]).0, level, fs[1..], gs);
    }
  }

  /** Processing frames fails only if TLS does. */
  lemma {:induction false} OnlyTlsRefuses(c: Conn, level: Level, fs: seq<Frames.Frame>)
    ensures ProcessFrames(c, level, fs).1 == Pass || ProcessFrames(c, level, fs).1 == Fail(TlsFailed)
    decreases |fs|
  {
    hide CryptoOutput, ReadHs, WriteHs;
    if fs != [] {
      OnlyTlsRefuses(ProcessFrame(c, level, fs[0]).0, level, fs[1..]);
    }
  }

  /** The only datagrams this model leaves out: those with a short header that is accepted under
      keys that ask for a sample beyond their end. */
  lemma SampleMissing(c: Conn, buf: Data)
    ensures !SampleThere(c, buf) <==>
              && buf != [] && buf[0] < 0x80 && ShortHeaderAt(buf, |c.dstCid|).Ok?
              && c.spaces.appdata.keys.Some?
              && |buf| < 1 + |c.dstCid| + 4 + c.spaces.appdata.keys.value.remote.sampleLen
  {
    hide ShortHeaderAt;
  }

  /** The space of a datagram, and the refusals before it is opened: a header that does not parse is
      a bad packet, Retry (type bits 3) and Version Negotiation (version 0) are protocol violations,
      and a space without keys is an internal error. Type bits 0 open in the Initial space, 2 in the
      Handshake space, 1 and the short header in the application space. */
  lemma ReceiveAnswers(c: Conn, buf: Data)
    requires buf != [] && SampleThere(c, buf)
    ensures buf[0] < 0x80 && ShortHeaderAt(buf, |c.dstCid|).Err? ==> Receive(c, buf) == Err(BadPacket)
    ensures buf[0] < 0x80 && ShortHeaderAt(buf, |c.dstCid|).Ok? && c.spaces.appdata.keys.None? ==>
              Receive(c, buf) == Err(Transport(0x01))
    ensures buf[0] >= 0x80 && LongHeaderAt(buf).Err? ==> Receive(c, buf) == Err(BadPacket)
    ensures buf[0] >= 0x80 && LongHeaderAt(buf).Ok? ==>
              && |buf| >= 5
              && var version, bits := Value(buf[1..5]), buf[0] / 16 % 4;
              && (version == 0 || bits == 3 ==> Receive(c, buf) == Err(Transport(0x0a)))
              && (version != 0 && bits != 3 ==>
                    var s := if bits == 0 then c.spaces.initial
                             else if bits == 2 then c.spaces.handshake else c.spaces.appdata;
                    s.keys.None? ==> Receive(c, buf) == Err(Transport(0x01)))
    ensures Receive(c, buf).Ok? ==>
              Receive(c, buf).value.level
              == if buf[0] < 0x80 then 2 else if buf[0] / 16 % 4 == 0 then 0
                 else if buf[0] / 16 % 4 == 2 then 1 else 2
  {
    hide ShortHeaderAt, SampleThere, Open, OpenLong, PnOffsetLong, HasSample;
    if buf[0] >= 0x80 && LongHeaderAt(buf).Ok? {
      LongTypeIs(buf);
    }
    hide LongHeaderAt;
  }

  lemma LongTypeIs(s: Data)
    requires LongHeaderAt(s).Ok?
    ensures |s| >= 5
    ensures LongHeaderAt(s).value.0.ty
         == if Value(s[1..5]) == 0 then VersionNegotiation
            else if s[0] / 16 % 4 == 0 then Initial else if s[0] / 16 % 4 == 1 then ZeroRtt
            else if s[0] / 16 % 4 == 2 then Handshake else Retry
  {
    hide TakeCid, TakeAnyCid, TakeVarint, TakeFixed, Value, ReadPn;
    HeaderFormat.LongFormRefused(s);
    HeaderFormat.VersionBytes(s);
  }

  /** A CONNECTION_CLOSE closes with the peer's code if it is one the RFC assigns (0 to 0x11, or a
      TLS alert at 0x100 to 0x1ff), and else as an internal error. */
  lemma CloseAnswered(c: Conn, level: Level, code: nat, ty: Option<nat>, reason: Data)
    ensures var (d, r) := ProcessFrame(c, level, Frames.ConnectionClose(code, ty, reason));
            && r == Pass && d.state == State.Closed
            && d.closeReason == Some(Transport(if code <= 17 || (256 <= code <= 511) then code else 1))
            && d == c.(state := State.Closed, closeReason := d.closeReason)
  {
  }

  /** CRYPTO data that does not continue the stream changes nothing; data that TLS refuses changes
      nothing but TLS. */
  lemma CryptoAnswered(c: Conn, level: Level, offset: nat, data: Data)
    ensures var (d, r) := ProcessFrame(c, level, Frames.Crypto(offset, data));
            var expected := c.cryptoRecvOffset.At(level);
            && (offset != expected ==> d == c && r == Pass)
            && (offset == expected && !c.tls.oracle.accepts(c.tls.history, data) ==>
                  d == c.(tls := d.tls) && r == Fail(TlsFailed))
            && (offset == expected && c.tls.oracle.accepts(c.tls.history, data) ==>
                  r == Pass && d.cryptoRecvOffset == c.cryptoRecvOffset.With(level, offset + |data|))
  {
    hide CryptoOutput, WriteHs;
    if offset == c.cryptoRecvOffset.At(level) {
      var (tls1, ok) := ReadHs(c.tls, level, data);
      var (tls2, out, kc) := WriteHs(tls1, level);
      OutputKeepsOffset(c.(tls := tls2), out, KeysOf(kc), level);
    }
  }

  /** What becomes of TLS output at a level, and of the keys that come with it. It waits at its level.
      Keys at the Initial level are the Handshake space's, if that has none yet, and TLS is asked for
      Handshake-level output, whose keys are the application space's, if that has none yet. Keys at
      the Handshake level are the application space's, if that has none yet, and TLS is asked for
      application-level output, whose keys replace any. New application keys establish. */
  lemma OutputAnswered(c: Conn, data: Data, keys: Option<Keys>, level: Level)
    ensures var d := CryptoOutput(c, data, keys, level);
            var (more, kc) := c.tls.oracle.output(c.tls.history);
            var pending, hs, app := c.pendingCrypto, c.spaces.handshake.keys, c.spaces.appdata.keys;
            && (keys.None? || level == 2 ==>
                  d == c.(pendingCrypto := pending.With(level, pending.At(level) + data)))
            && (keys.Some? && level == 0 ==>
                  && d.pendingCrypto == Per(pending.initial + data, pending.handshake + more, pending.appdata)
                  && d.spaces.handshake.keys == (if hs.Some? then hs else keys)
                  && d.spaces.appdata.keys == (if app.Some? then app else KeysOf(kc))
                  && d.state == (if app.None? && kc.Some? then Established else c.state)
                  && d.tls.history == c.tls.history + [Write(1)])
            && (keys.Some? && level == 1 ==>
                  && d.pendingCrypto == Per(pending.initial, pending.handshake + data, pending.appdata + more)
                  && d.spaces.handshake.keys == hs
                  && d.spaces.appdata.keys == (if kc.Some? then KeysOf(kc) else if app.Some? then app else keys)
                  && d.state == (if app.None? then Established else c.state)
                  && d.tls.history == c.tls.history + [Write(2)])
            && d.spaces.initial == c.spaces.initial
  {
  }

  lemma OutputKeepsOffset(c: Conn, data: Data, keys: Option<Keys>, level: Level)
    ensures CryptoOutput(c, data, keys, level).cryptoRecvOffset == c.cryptoRecvOffset
  {
  }

  /** All frames but CRYPTO, STREAM, CONNECTION_CLOSE and HANDSHAKE_DONE are ignored; stream data
      is received whatever its stream and offset; HANDSHAKE_DONE establishes a client only. */
  lemma OthersAnswered(c: Conn, level: Level, f: Frames.Frame)
    requires !f.Crypto? && !f.ConnectionClose?
    ensures var (d, r) := ProcessFrame(c, level, f);
            && r == Pass
            && (f.Stream? ==> d == c.(receivedAppData := c.receivedAppData + f.data))
            && (f.HandshakeDone? ==> d == if c.side == Client then c.(state := Established) else c)
            && (!f.Stream? && !f.HandshakeDone? ==> d == c)
  {
  }

  /** After any packets, the largest number of a space is the largest that arrived, and the numbers
      to acknowledge are those that arrived, in order of arrival. */
  function AllRecorded(s: Space, pns: seq<nat>): Space
    decreases |pns|
  {
    if pns == [] then s else AllRecorded(Recorded(s, pns[0]), pns[1..])
  }

  lemma {:induction false} LargestOfAll(s: Space, pns: seq<nat>)
    ensures var t := AllRecorded(s, pns);
            && s.largestRecvPn <= t.largestRecvPn && (forall pn :: pn in pns ==> pn <= t.largestRecvPn)
            && (t.largestRecvPn == s.largestRecvPn || t.largestRecvPn in pns)
            && t.pendingAcks == s.pendingAcks + pns
            && t.keys == s.keys && t.nextSendPn == s.nextSendPn
    decreases |pns|
  {
    if pns == [] {
      assert s.pendingAcks + [] == s.pendingAcks;
    } else {
      LargestOfAll(Recorded(s, pns[0]), pns[1..]);
      assert forall pn :: pn in pns <==> pn == pns[0] || pn in pns[1..];
      assert s.pendingAcks + [pns[0]] + pns[1..] == s.pendingAcks + pns;
    }
  }

  // ------------------------------------------------------------ egest

  /** Something waits at a level: CRYPTO bytes, numbers to acknowledge, the server's HANDSHAKE_DONE,
      or the stream data of an established connection. */
  predicate Pending(c: Conn, level: Level)
  {
    || c.pendingCrypto.At(level) != [] || c.spaces.At(level).pendingAcks != []
    || (level == 2 && c.side == Server && c.state == Handshaking)
    || (level == 2 && c.state == Established && c.pendingAppData != [])
  }

  predicate CanSend(c: Conn, level: Level)
  {
    c.spaces.At(level).keys.Some? && Pending(c, level)
  }

  lemma ReadyIs(c: Conn, level: Level)
    ensures Ready(c, level) <==> CanSend(c, level)
    ensures Waiting(c, level) == [] <==> !Pending(c, level)
  {
    hide AckFor;
  }

  /** The frames of a packet: CRYPTO, ACK, HANDSHAKE_DONE and STREAM, in this order, each if there is
      something for it. */
  lemma PacketFrames(c: Conn, level: Level)
    ensures var crypto, acks := c.pendingCrypto.At(level), c.spaces.At(level).pendingAcks;
            Waiting(c, level)
            == (if crypto != [] then [Frames.Crypto(0, crypto)] else [])
               + (if acks != [] then [Frames.Ack(Max(acks), 0, [Frames.AckRange(0, |acks| - 1)], None)] else [])
               + (if level == 2 && c.side == Server && c.state == Handshaking then [Frames.HandshakeDone] else [])
               + (if level == 2 && c.state == Established && c.pendingAppData != []
                  then [Frames.Stream(0, c.streamSendOffset, c.pendingAppData, false)] else [])
  {
  }

  /** The next packet comes from the least level that can send, under the space's next number; when
      none can, there is none. Its frames are no longer pending, HANDSHAKE_DONE establishes the server,
      the stream goes on behind the data, and other levels stay as they are. */
  lemma DepartsFrom(c: Conn)
    ensures var (d, out) := Depart(c);
            && (out.Idle? <==> forall level: Level :: !CanSend(c, level))
            && (out.Idle? ==> d == c)
            && (!out.Idle? ==>
                  var level := out.level;
                  && CanSend(c, level) && (forall l: Level :: l < level ==> !CanSend(c, l))
                  && out.pn == c.spaces.At(level).nextSendPn && out.frames == Waiting(c, level)
                  && d.spaces.At(level).nextSendPn == out.pn + 1
                  && d.pendingCrypto.At(level) == [] && d.spaces.At(level).pendingAcks == []
                  && d.state == (if level == 2 && c.side == Server && c.state == Handshaking
                                 then Established else c.state)
                  && (if level == 2 && c.state == Established
                      then d.pendingAppData == []
                           && d.streamSendOffset == c.streamSendOffset + |c.pendingAppData|
                      else d.pendingAppData == c.pendingAppData && d.streamSendOffset == c.streamSendOffset)
                  && (forall l: Level :: l != level ==>
                        d.spaces.At(l) == c.spaces.At(l) && d.pendingCrypto.At(l) == c.pendingCrypto.At(l)))
  {
    ReadyIs(c, 0);
    ReadyIs(c, 1);
    ReadyIs(c, 2);
    hide Waiting, Sealing;
  }

  /** The packet is those frames sealed under the space's keys, to the peer's ID, in the short form
      exactly if the connection was established before they were taken, or the error of that. */
  lemma DepartsSealed(c: Conn)
    requires !Depart(c).1.Idle?
    ensures var out := Depart(c).1;
            && c.spaces.At(out.level).keys.Some?
            && var s := c.spaces.At(out.level);
            match SealPacket(s.keys.value.local, out.level, c.version, c.dstCid, c.srcCid, out.frames,
                             s.nextSendPn, EncodedPnLen(s.nextSendPn), c.state == Established)
            case Ok(packet) => out.Sent? && out.packet == packet
            case Err(e) => out.Lost? && out.error == e
  {
    hide Waiting, SealPacket;
  }

  /** What `egest` returns: an error on a closed connection, nothing when there is no packet or it
      does not fit, and else the whole packet, or the error of sealing it. */
  lemma EgestAnswers(c: Conn, cap: nat)
    ensures c.state == State.Closed ==> Egest(c, cap) == (c, Err(ClosedAlready))
    ensures c.state != State.Closed ==>
              var (d, out) := Depart(c);
              && (out.Idle? ==> Egest(c, cap) == (c, Ok([])))
              && (out.Lost? ==> Egest(c, cap) == (d, Err(out.error)))
              && (out.Sent? ==> Egest(c, cap) == (d, Ok(if |out.packet| > cap then [] else out.packet)))
  {
    DepartsFrom(c);
    hide Depart, CanSend, Waiting;
  }

  // ------------------------------------------------------------ connect and accept

  /** The ClientHello is the data of the CRYPTO frames at offset 0, in order: other frames add
      nothing to it. */
  lemma {:induction false} HelloParts(fs: seq<Frames.Frame>, gs: seq<Frames.Frame>)
    ensures HelloIn(fs + gs) == HelloIn(fs) + HelloIn(gs)
    ensures forall f: Frames.Frame :: HelloIn([f]) == if f.Crypto? && f.offset == 0 then f.data else []
    decreases |fs|
  {
    assert forall f: Frames.Frame :: [f][1..] == [];
    if fs == [] {
      assert fs + gs == gs;
    } else {
      assert (fs + gs)[1..] == fs[1..] + gs;
      HelloParts(fs[1..], gs);
    }
  }

  /** Whom `accept` refuses: a header that does not parse, a packet that does not open under the
      keys derived from its destination ID, and a ClientHello that TLS refuses. */
  lemma AcceptRefusals(packet: Data, oracle: Oracle, serverKeys: Data -> Keys)
    ensures LongHeaderAt(packet).Err? ==> Accept(packet, oracle, serverKeys) == Err(BadPacket)
    ensures LongHeaderAt(packet).Ok? ==>
              var h := LongHeaderAt(packet).value.0;
              var r := OpenLong(serverKeys(h.dstCid).remote, packet, PnOffsetLong(h));
              && (r.Err? ==> Accept(packet, oracle, serverKeys) == Err(r.error))
              && (r.Ok? ==>
                    if oracle.accepts([], HelloIn(r.value.1)) then Accept(packet, oracle, serverKeys).Ok?
                    else Accept(packet, oracle, serverKeys) == Err(TlsFailed))
  {
    hide LongHeaderAt, OpenLong, PnOffsetLong, HelloIn, ServerHello;
  }

  lemma ServerOutput(c: Conn)
    ensures var d := ServerHello(c);
            var h := c.tls.history;
            var ((out0, kc0), (out1, kc1)) := (c.tls.oracle.output(h), c.tls.oracle.output(h + [Write(0)]));
            var pending := c.pendingCrypto;
            && d == c.(tls := d.tls, pendingCrypto := d.pendingCrypto, spaces := d.spaces)
            && d.pendingCrypto == Per(pending.initial + out0,
                                      pending.handshake + (if kc0.Some? then out1 else []), pending.appdata)
            && d.spaces.initial == c.spaces.initial
            && d.spaces.handshake
               == (if kc0.Some? then c.spaces.handshake.(keys := KeysOf(kc0)) else c.spaces.handshake)
            && d.spaces.appdata
               == (if kc0.Some? && kc1.Some? then c.spaces.appdata.(keys := KeysOf(kc1)) else c.spaces.appdata)
  {
    assert c.pendingCrypto.handshake + [] == c.pendingCrypto.handshake;
  }

  /** A server answers to the client's IDs, in its version, with the client's packet counted as
      number 0 and its own Initial number 0 still to be used. The first output of TLS waits at the
      Initial level; keys that come with it are the Handshake space's, and only then is there a
      second output, which waits at the Handshake level, with keys of the application space. */
  lemma AcceptedServer(packet: Data, oracle: Oracle, serverKeys: Data -> Keys)
    requires Accept(packet, oracle, serverKeys).Ok?
    ensures var c := Accept(packet, oracle, serverKeys).value;
            && LongHeaderAt(packet).Ok?
            && var h := LongHeaderAt(packet).value.0;
            && var r := OpenLong(serverKeys(h.dstCid).remote, packet, PnOffsetLong(h));
            && r.Ok?
            && var hello := HelloIn(r.value.1);
            var read := [Read(0, hello, true)];
            var ((out0, kc0), (out1, kc1)) := (oracle.output(read), oracle.output(read + [Write(0)]));
            && c.pendingCrypto.initial == out0 && c.pendingCrypto.appdata == []
            && c.pendingCrypto.handshake == (if kc0.Some? then out1 else [])
            && c.spaces.handshake.keys == KeysOf(kc0)
            && c.spaces.appdata.keys == (if kc0.Some? then KeysOf(kc1) else None)
            && c.cryptoRecvOffset == Per(|hello|, 0, 0)
            && c.side == Server && c.state == Handshaking && c.version == h.version
            && c.dstCid == h.srcCid && c.srcCid == h.dstCid
            && c.spaces.initial == Space(Some(serverKeys(h.dstCid)), 0, 0, [0])
            && c.spaces.handshake.pendingAcks == [] && c.spaces.appdata.pendingAcks == []
            && c.spaces.handshake.nextSendPn == 0 && c.spaces.appdata.nextSendPn == 0
            && c.pendingAppData == [] && c.receivedAppData == [] && c.streamSendOffset == 0
            && c.closeReason == None
  {
    hide LongHeaderAt, OpenLong, PnOffsetLong, HelloIn, ServerHello;
    var h := LongHeaderAt(packet).value.0;
    var hello := HelloIn(OpenLong(serverKeys(h.dstCid).remote, packet, PnOffsetLong(h)).value.1);
    var tls := ReadHs(Session(oracle, []), INITIAL, hello).0;
    assert [] + [Read(0, hello, true)] == [Read(0, hello, true)];
    assert forall out: Data :: [] + out == out;
    ServerOutput(WithKeys(Fresh(Server, Handshaking, tls, h.version, h.srcCid, h.dstCid), INITIAL,
                          serverKeys(h.dstCid)));
    assert Accept(packet, oracle, serverKeys).value.spaces.initial.pendingAcks == [0];
  }

  /** A client is of version 1, has used number 0 of its Initial space, and holds nothing yet. */
  lemma ConnectedClient(oracle: Oracle, keys: Keys, dst: Data, src: Data)
    ensures var hello := oracle.output([]).0;
            match FirstInitial(keys.local, dst, src, hello)
            case Err(e) => Connect(oracle, keys, dst, src) == Err(e)
            case Ok(packet) =>
              && Connect(oracle, keys, dst, src).Ok?
              && var (c, sent) := Connect(oracle, keys, dst, src).value;
              && sent == packet && c.side == Client && c.state == Connecting && c.version == 1
              && c.dstCid == dst && c.srcCid == src && c.spaces.initial == Space(Some(keys), 1, 0, [])
              && c.spaces.handshake == Space(None, 0, 0, []) && c.spaces.appdata == Space(None, 0, 0, [])
              && (forall l: Level :: c.pendingCrypto.At(l) == [] && c.cryptoRecvOffset.At(l) == 0)
              && c.pendingAppData == [] && c.receivedAppData == [] && c.streamSendOffset == 0
              && c.closeReason == None
  {
    hide FirstInitial;
  }
}
