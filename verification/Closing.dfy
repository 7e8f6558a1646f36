/** What processing frames does to the state, and so how a close can be undone. */
module Closing {
  import opened Wrappers
  import opened Bytes
  import opened Protection
  import opened Tls
  import opened Connections
  import opened Runs
  import Delivery
  import Frames
  import FrameLaws
  import Packets
  import ProtectionLaws

  /** The frame brought the first 1-RTT keys. */
  predicate NewlyKeyed(c: Conn, d: Conn)
  {
    c.spaces.appdata.keys.None? && d.spaces.appdata.keys.Some?
  }

  lemma InitialState(c: Conn, keys: Keys)
    ensures var d := AfterInitialKeys(c, keys);
            d.state == if NewlyKeyed(c, d) then Established else c.state
  {
  }

  lemma HandshakeState(c: Conn, keys: Keys)
    ensures var d := AfterHandshakeKeys(c, keys);
            d.state == if NewlyKeyed(c, d) then Established else c.state
  {
  }

  /** The state after one frame, whatever the state before was. */
  lemma FrameState(c: Conn, level: Level, f: Frames.Frame)
    ensures var d := ProcessFrame(c, level, f).0;
            d.state == if f.ConnectionClose? then State.Closed
                       else if NewlyKeyed(c, d) || (f.HandshakeDone? && c.side == Client)
                       then Established
                       else c.state
  {
    hide AfterInitialKeys, AfterHandshakeKeys;
    if f.Crypto? {
      var (tls1, ok) := ReadHs(c.tls, level, f.data);
      var (tls2, out, kc) := WriteHs(tls1, level);
      if kc.Some? {
        var c2 := Buffered(c.(tls := tls2), level, out);
        InitialState(c2, kc.value.keys);
        HandshakeState(c2, kc.value.keys);
      }
    }
  }

  /** Whether frames bring a client HANDSHAKE_DONE, or an endpoint that is not `keyed` its first
      1-RTT keys, before one that TLS refuses. CRYPTO data at the receive offset is asked of TLS
      as the connection asks it: at the Initial level the second output must come with keys too,
      at the Handshake level the first is enough, and 1-RTT data brings none. */
  predicate Reopens(client: bool, keyed: bool, tls: Session, offset: nat, level: Level,
                    fs: seq<Frames.Frame>)
    decreases |fs|
  {
    if fs == [] then false
    else
      match fs[0]
      case HandshakeDone => client || Reopens(client, keyed, tls, offset, level, fs[1..])
      case Crypto(o, data) =>
        if o != offset then Reopens(client, keyed, tls, offset, level, fs[1..])
        else
          var (tls1, ok) := ReadHs(tls, level, data);
          if !ok then false
          else
            var (keys, tls2) := KeysAfter(tls1, level);
            (keys && !keyed)
            || Reopens(client, keyed || keys, tls2, offset + |data|, level, fs[1..])
      case _ => Reopens(client, keyed, tls, offset, level, fs[1..])
  }

  /** Whether the output that follows a read brings 1-RTT keys, and TLS after it. */
  function KeysAfter(tls: Session, level: Level): (bool, Session)
  {
    var (tls1, _, kc) := WriteHs(tls, level);
    if kc.None? || level == APPDATA then (false, tls1)
    else
      var (tls2, _, more) := WriteHs(tls1, if level == INITIAL then HANDSHAKE else APPDATA);
      (level == HANDSHAKE || more.Some?, tls2)
  }

  predicate ReopensAt(c: Conn, level: Level, fs: seq<Frames.Frame>)
  {
    Reopens(c.side == Client, c.spaces.appdata.keys.Some?, c.tls, c.cryptoRecvOffset.At(level),
            level, fs)
  }

  /** What CRYPTO data does to the parts of the connection that decide whether it reopens. */
  lemma CryptoMeans(c: Conn, level: Level, f: Frames.Frame)
    requires f.Crypto? && f.offset == c.cryptoRecvOffset.At(level)
    ensures var (d, r) := ProcessFrame(c, level, f);
            var (tls1, ok) := ReadHs(c.tls, level, f.data);
            && (r.Pass? <==> ok)
            && (!ok ==> d.state == c.state)
            && (ok ==>
                  var (keys, tls2) := KeysAfter(tls1, level);
                  && d.tls == tls2 && d.side == c.side
                  && d.cryptoRecvOffset.At(level) == f.offset + |f.data|
                  && (d.spaces.appdata.keys.Some? <==> c.spaces.appdata.keys.Some? || keys))
  {
    hide ReadHs, WriteHs, Buffered;
    var (tls1, ok) := ReadHs(c.tls, level, f.data);
    if ok {
      var (tls2, out, kc) := WriteHs(tls1, level);
      OutputMeans(c.(tls := tls2), out, KeysOf(kc), level);
    }
  }

  lemma BufferedMeans(c: Conn, level: Level, data: Data)
    ensures Buffered(c, level, data) == c.(pendingCrypto := Buffered(c, level, data).pendingCrypto)
  {
  }

  lemma OutputMeans(c: Conn, data: Data, keys: Option<Keys>, level: Level)
    ensures var d := CryptoOutput(c, data, keys, level);
            d.side == c.side && d.cryptoRecvOffset == c.cryptoRecvOffset
    ensures var d := CryptoOutput(c, data, keys, level);
            if keys.None? || level == APPDATA
            then d.tls == c.tls && d.spaces.appdata.keys == c.spaces.appdata.keys
            else
              var (tls, _, more) := WriteHs(c.tls, if level == INITIAL then HANDSHAKE else APPDATA);
              d.tls == tls
              && (d.spaces.appdata.keys.Some?
                  <==> c.spaces.appdata.keys.Some? || level == HANDSHAKE || more.Some?)
  {
    hide WriteHs, Buffered;
    var c1 := Buffered(c, level, data);
    BufferedMeans(c, level, data);
    if keys.Some? && level == INITIAL {
      var c2 := if c1.spaces.handshake.keys.Some? then c1 else WithKeys(c1, HANDSHAKE, keys.value);
      var (tls, more, kc) := WriteHs(c2.tls, HANDSHAKE);
      BufferedMeans(c2.(tls := tls), HANDSHAKE, more);
    } else if keys.Some? && level == HANDSHAKE {
      var c2 := if c1.spaces.appdata.keys.Some? then c1
                else WithKeys(c1, APPDATA, keys.value).(state := Established);
      var (tls, more, kc) := WriteHs(c2.tls, APPDATA);
      BufferedMeans(c2.(tls := tls), APPDATA, more);
    }
  }

  /** Frames that follow a CONNECTION_CLOSE in its packet are still processed. The connection
      stays closed exactly when they do not reopen it. */
  lemma {:induction false} CloseStays(c: Conn, level: Level, fs: seq<Frames.Frame>)
    requires c.state == State.Closed
    requires forall f :: f in fs ==> !f.ConnectionClose?
    ensures ProcessFrames(c, level, fs).0.state == State.Closed <==> !ReopensAt(c, level, fs)
    decreases |fs|
  {
    hide ProcessFrame, KeysAfter, ReadHs;
    if fs != [] {
      var (c1, r) := ProcessFrame(c, level, fs[0]);
      assert fs[0] in fs && forall f :: f in fs[1..] ==> f in fs;
      FrameState(c, level, fs[0]);
      if fs[0].Crypto? && fs[0].offset == c.cryptoRecvOffset.At(level) {
        CryptoMeans(c, level, fs[0]);
      } else {
        OtherFrame(c, level, fs[0]);
      }
      if r.Pass? {
        if c1.state == State.Closed {
          CloseStays(c1, level, fs[1..]);
        } else {
          OpenStays(c1, level, fs[1..]);
        }
      }
    }
  }

  lemma OtherFrame(c: Conn, level: Level, f: Frames.Frame)
    requires !(f.Crypto? && f.offset == c.cryptoRecvOffset.At(level))
    ensures var (d, r) := ProcessFrame(c, level, f);
            r.Pass? && d.tls == c.tls && d.side == c.side && d.spaces == c.spaces
            && d.cryptoRecvOffset == c.cryptoRecvOffset
  {
  }

  /** The same for a whole datagram: one whose frames include a last CONNECTION_CLOSE that is
      reached leaves the connection closed exactly when the frames behind it do not reopen it in
      the state at the close. */
  lemma ClosingPacket(c: Conn, buf: Data, before: seq<Frames.Frame>, close: Frames.Frame,
                      after: seq<Frames.Frame>)
    requires c.state != State.Closed && buf != [] && SampleThere(c, buf) && Receive(c, buf).Ok?
    requires Receive(c, buf).value.frames == before + ([close] + after)
    requires close.ConnectionClose? && forall f :: f in after ==> !f.ConnectionClose?
    requires var a := Receive(c, buf).value;
             ProcessFrames(Noted(c, a), a.level, before).1.Pass?
    ensures var a := Receive(c, buf).value;
            var atClose := ProcessFrames(Noted(c, a), a.level, before).0;
            Ingest(c, buf).0.state == State.Closed <==> !ReopensAt(atClose, a.level, after)
  {
    hide ProcessFrames, Receive, SampleThere, Reopens;
    var a := Receive(c, buf).value;
    var (d, _) := ProcessFrames(Noted(c, a), a.level, before);
    ProcessConcat(Noted(c, a), a.level, before, [close] + after);
    ProcessConcat(d, a.level, [close], after);
    CloseCloses(d, a.level, close);
    CloseStays(ProcessFrames(d, a.level, [close]).0, a.level, after);
  }

  /** The connection once the packet's number is noted, before its frames. */
  function Noted(c: Conn, a: Arrival): Conn
  {
    c.(spaces := c.spaces.With(a.level, Recorded(c.spaces.At(a.level), a.pn)))
  }

  lemma CloseCloses(c: Conn, level: Level, close: Frames.Frame)
    requires close.ConnectionClose?
    ensures var (d, r) := ProcessFrames(c, level, [close]);
            r.Pass? && d == c.(state := State.Closed, closeReason := d.closeReason)
  {
    assert [close][1..] == [];
  }

  /** Frames other than CONNECTION_CLOSE do not close a connection. */
  lemma {:induction false} OpenStays(c: Conn, level: Level, fs: seq<Frames.Frame>)
    requires c.state != State.Closed
    requires forall f :: f in fs ==> !f.ConnectionClose?
    ensures ProcessFrames(c, level, fs).0.state != State.Closed
    decreases |fs|
  {
    hide ProcessFrame;
    if fs != [] {
      FrameState(c, level, fs[0]);
      OpenStays(ProcessFrame(c, level, fs[0]).0, level, fs[1..]);
    }
  }

  /** An instance: a datagram that closes a client and then confirms its handshake leaves it
      established, with the reason for a close that did not happen. Any long packet will do. */
  lemma CloseUndone(c: Conn, s: DirectionalKeys, level: Level, version: Packets.U32, dst: Data, src: Data,
                    pn: nat, pnLen: nat, code: nat, reason: Data)
    requires c.side == Client && c.state != State.Closed
    requires c.spaces.At(level).keys.Some? && Opens(s, c.spaces.At(level).keys.value.remote)
    requires version != 0 && |dst| <= Packets.MAX_CID_LEN && |src| <= Packets.MAX_CID_LEN
    requires 1 <= pnLen <= 4 && pn < Pow256(pnLen)
    requires SealPacket(s, level, version, dst, src, CloseThenDone(code, reason), pn, pnLen, false).Ok?
    ensures var packet := SealPacket(s, level, version, dst, src, CloseThenDone(code, reason),
                                     pn, pnLen, false).value;
            SampleThere(c, packet)
            && var (d, r) := Ingest(c, packet);
            && r == Ok(|packet|) && d.state == Established
            && d.closeReason == Some(Transport(CloseCode(code)))
  {
    hide SealPacket, Opens, Receive, SampleThere, ProcessFrames, FrameLaws.Pads,
         ProtectionLaws.PadCount, Delivery.Sturdy, Recorded, Pow256;
    var fs := CloseThenDone(code, reason);
    CloseThenDoneSturdy(code, reason);
    Delivery.LongReceived(c, s, level, version, dst, src, fs, pn, pnLen, false);
    var k := ProtectionLaws.PadCount(s, level, dst, src, fs, pnLen);
    var c0 := Noted(c, Arrival(level, pn, fs + FrameLaws.Pads(k)));
    PaddedProcess(c0, level, fs, k);
    CloseThenDoneMeans(c0, level, code, reason);
  }

  function CloseThenDone(code: nat, reason: Data): seq<Frames.Frame>
  {
    [Frames.ConnectionClose(code, None, reason), Frames.HandshakeDone]
  }

  lemma CloseThenDoneSturdy(code: nat, reason: Data)
    ensures Delivery.Sturdy(CloseThenDone(code, reason))
  {
    forall k: nat ensures FrameLaws.ListRecoverable(CloseThenDone(code, reason), Zeros(k)) {
      Delivery.SturdyList(CloseThenDone(code, reason), Zeros(k));
    }
  }

  lemma CloseThenDoneMeans(c: Conn, level: Level, code: nat, reason: Data)
    requires c.side == Client
    ensures var (d, r) := ProcessFrames(c, level, CloseThenDone(code, reason));
            && r == Pass && d.state == Established
            && d.closeReason == Some(Transport(CloseCode(code)))
  {
    var fs := CloseThenDone(code, reason);
    var c1 := ProcessFrame(c, level, fs[0]).0;
    assert fs[1..] == [Frames.HandshakeDone] && fs[1..][1..] == [];
    assert ProcessFrames(c, level, fs) == ProcessFrames(c1, level, fs[1..]);
    var c2 := ProcessFrame(c1, level, fs[1]).0;
    assert ProcessFrames(c1, level, fs[1..]) == ProcessFrames(c2, level, []);
  }
}
