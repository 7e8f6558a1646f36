/** Whole runs of one connection, driven by any sequence of API calls. */
module Runs {
  import opened Wrappers
  import opened Bytes
  import opened Protection
  import opened Tls
  import opened Connections
  import Frames
  import FrameLaws

  datatype Step = DoSend(data: Data) | DoRecv(cap: nat) | DoIngest(buf: Data) | DoEgest(cap: nat)

  /** One API call. A datagram on which the short receive path would slice past the end stops
      the process; here the state stays as it is. */
  function Next(c: Conn, step: Step): Conn
  {
    match step
    case DoSend(data) => SendData(c, data)
    case DoRecv(cap) => RecvData(c, cap).0
    case DoIngest(buf) => if SampleThere(c, buf) then Ingest(c, buf).0 else c
    case DoEgest(cap) => Egest(c, cap).0
  }

  function Run(c: Conn, steps: seq<Step>): Conn
    decreases |steps|
  {
    if steps == [] then c else Run(Next(c, steps[0]), steps[1..])
  }

  /** The packets that one call of `egest` makes. */
  function Leaving(c: Conn, step: Step): seq<Departure>
  {
    if step.DoEgest? && c.state != State.Closed && !Depart(c).1.Idle? then [Depart(c).1] else []
  }

  function Departures(c: Conn, steps: seq<Step>): seq<Departure>
    decreases |steps|
  {
    if steps == [] then [] else Leaving(c, steps[0]) + Departures(Next(c, steps[0]), steps[1..])
  }

  // ------------------------------------------------------------ what one packet may change

  /** What processing received frames never touches. */
  ghost predicate SameSending(c: Conn, d: Conn)
  {
    && d.side == c.side && d.version == c.version && d.dstCid == c.dstCid && d.srcCid == c.srcCid
    && d.pendingAppData == c.pendingAppData && d.streamSendOffset == c.streamSendOffset
    && d.tls.oracle == c.tls.oracle
    && (forall l: Level :: d.spaces.At(l).nextSendPn == c.spaces.At(l).nextSendPn)
  }

  /** Processing frames keeps a state or enters one of the last two. */
  ghost predicate Forward(c: Conn, d: Conn)
  {
    && (d.state == c.state || d.state == Established || d.state == State.Closed)
    && (c.state == State.Closed && c.closeReason.Some? ==> d.closeReason.Some?)
    && (d.state == State.Closed && c.state != State.Closed ==> d.closeReason.Some?)
    && (c.closeReason.Some? ==> d.closeReason.Some?)
    && (forall l: Level :: c.spaces.At(l).keys.Some? ==> d.spaces.At(l).keys.Some?)
  }

  ghost predicate SameNumbers(c: Conn, d: Conn)
  {
    forall l: Level ::
      && d.spaces.At(l).largestRecvPn == c.spaces.At(l).largestRecvPn
      && d.spaces.At(l).pendingAcks == c.spaces.At(l).pendingAcks
  }

  /** What handling TLS output never touches. */
  ghost predicate SameButKeys(c: Conn, d: Conn)
  {
    && SameSending(c, d) && Forward(c, d) && SameNumbers(c, d)
    && d.receivedAppData == c.receivedAppData && d.closeReason == c.closeReason
    && d.cryptoRecvOffset == c.cryptoRecvOffset
    && (d.state == c.state || (d.state == Established && d.spaces.appdata.keys.Some?))
  }

  lemma SameButKeysTrans(c: Conn, d: Conn, e: Conn)
    requires SameButKeys(c, d) && SameButKeys(d, e)
    ensures SameButKeys(c, e)
  {
    assert d.spaces.At(APPDATA) == d.spaces.appdata && e.spaces.At(APPDATA) == e.spaces.appdata;
    hide Per.At;
  }

  lemma BufferedKeeps(c: Conn, level: Level, data: Data, tls: Session)
    requires tls.oracle == c.tls.oracle
    ensures SameButKeys(c, Buffered(c, level, data))
    ensures SameButKeys(c, Buffered(c.(tls := tls), level, data))
  {
    hide Per.At, Per.With;
  }

  lemma WithKeysKeeps(c: Conn, level: Level, keys: Keys)
    ensures SameButKeys(c, WithKeys(c, level, keys))
    ensures level == APPDATA ==> SameButKeys(c, WithKeys(c, level, keys).(state := Established))
  {
    assert WithKeys(c, level, keys).spaces.At(level).keys.Some?;
    hide Per.With;
  }

  lemma CryptoOutputKeeps(c: Conn, data: Data, keys: Option<Keys>, level: Level)
    ensures SameButKeys(c, CryptoOutput(c, data, keys, level))
  {
    hide AfterInitialKeys, AfterHandshakeKeys, Buffered, SameButKeys;
    BufferedKeeps(c, level, data, c.tls);
    if keys.Some? {
      var c1 := Buffered(c, level, data);
      if level == INITIAL {
        AfterInitialKeep(c1, keys.value);
        SameButKeysTrans(c, c1, AfterInitialKeys(c1, keys.value));
      } else if level == HANDSHAKE {
        AfterHandshakeKeep(c1, keys.value);
        SameButKeysTrans(c, c1, AfterHandshakeKeys(c1, keys.value));
      }
    }
  }

  lemma SameButKeysRefl(c: Conn)
    ensures SameButKeys(c, c)
  {
  }

  lemma AfterInitialKeep(c: Conn, keys: Keys)
    ensures SameButKeys(c, AfterInitialKeys(c, keys))
  {
    SameButKeysRefl(c);
    hide SameButKeys, Buffered, WithKeys;
    var c1 := if c.spaces.handshake.keys.Some? then c else WithKeys(c, HANDSHAKE, keys);
    WithKeysKeeps(c, HANDSHAKE, keys);
    var (tls, data, kc) := WriteHs(c1.tls, HANDSHAKE);
    var c2 := Buffered(c1.(tls := tls), HANDSHAKE, data);
    BufferedKeeps(c1, HANDSHAKE, data, tls);
    SameButKeysTrans(c, c1, c2);
    if kc.Some? && c2.spaces.appdata.keys.None? {
      WithKeysKeeps(c2, APPDATA, kc.value.keys);
      SameButKeysTrans(c, c2, AfterInitialKeys(c, keys));
    }
  }

  lemma AfterHandshakeKeep(c: Conn, keys: Keys)
    ensures SameButKeys(c, AfterHandshakeKeys(c, keys))
  {
    SameButKeysRefl(c);
    hide SameButKeys, Buffered, WithKeys;
    var c1 := if c.spaces.appdata.keys.Some? then c
              else WithKeys(c, APPDATA, keys).(state := Established);
    WithKeysKeeps(c, APPDATA, keys);
    var (tls, data, kc) := WriteHs(c1.tls, APPDATA);
    var c2 := Buffered(c1.(tls := tls), APPDATA, data);
    BufferedKeeps(c1, APPDATA, data, tls);
    SameButKeysTrans(c, c1, c2);
    if kc.Some? {
      WithKeysKeeps(c2, APPDATA, kc.value.keys);
      SameButKeysTrans(c, c2, AfterHandshakeKeys(c, keys));
    }
  }

  lemma ProcessFrameKeeps(c: Conn, level: Level, f: Frames.Frame)
    ensures var (d, r) := ProcessFrame(c, level, f);
            && SameSending(c, d) && Forward(c, d) && SameNumbers(c, d)
            && d.receivedAppData == c.receivedAppData + (if f.Stream? then f.data else [])
  {
    hide CryptoOutput;
    if f.Crypto? {
      var (tls1, ok) := ReadHs(c.tls, level, f.data);
      var (tls2, out, kc) := WriteHs(tls1, level);
      CryptoOutputKeeps(c.(tls := tls2), out, KeysOf(kc), level);
    }
  }

  /** The stream bytes in a frame list. */
  function StreamBytes(fs: seq<Frames.Frame>): Data
  {
    if fs == [] then []
    else (if fs[0].Stream? then fs[0].data else []) + StreamBytes(fs[1..])
  }

  lemma {:induction false} ProcessFramesKeeps(c: Conn, level: Level, fs: seq<Frames.Frame>)
    ensures var (d, r) := ProcessFrames(c, level, fs);
            && SameSending(c, d) && Forward(c, d) && SameNumbers(c, d)
            && (r.Pass? ==> d.receivedAppData == c.receivedAppData + StreamBytes(fs))
    decreases |fs|
  {
    hide ProcessFrame;
    if fs != [] {
      ProcessFrameKeeps(c, level, fs[0]);
      var (c1, r) := ProcessFrame(c, level, fs[0]);
      if r.Pass? {
        ProcessFramesKeeps(c1, level, fs[1..]);
      }
    }
  }

  /** A list is processed front to back: its tail only if nothing before it was refused. */
  lemma {:induction false} ProcessConcat(c: Conn, level: Level, fs: seq<Frames.Frame>, gs: seq<Frames.Frame>)
    ensures ProcessFrames(c, level, fs + gs)
         == var (c1, r) := ProcessFrames(c, level, fs);
            if r.Fail? then (c1, r) else ProcessFrames(c1, level, gs)
    decreases |fs|
  {
    hide ProcessFrame;
    if fs == [] {
      assert fs + gs == gs;
    } else {
      assert (fs + gs)[1..] == fs[1..] + gs;
      var (c1, r) := ProcessFrame(c, level, fs[0]);
      if r.Pass? {
        ProcessConcat(c1, level, fs[1..], gs);
      }
    }
  }

  lemma {:induction false} PaddingIgnored(c: Conn, level: Level, k: nat)
    ensures ProcessFrames(c, level, FrameLaws.Pads(k)) == (c, Pass)
  {
    if k > 0 {
      assert FrameLaws.Pads(k)[1..] == FrameLaws.Pads(k - 1);
      PaddingIgnored(c, level, k - 1);
    }
  }

  /** The padding of a packet does nothing. */
  lemma PaddedProcess(c: Conn, level: Level, fs: seq<Frames.Frame>, k: nat)
    ensures ProcessFrames(c, level, fs + FrameLaws.Pads(k)) == ProcessFrames(c, level, fs)
  {
    hide ProcessFrames, FrameLaws.Pads;
    ProcessConcat(c, level, fs, FrameLaws.Pads(k));
    PaddingIgnored(ProcessFrames(c, level, fs).0, level, k);
  }

  lemma IngestKeeps(c: Conn, buf: Data)
    requires SampleThere(c, buf)
    ensures var (d, r) := Ingest(c, buf);
            && SameSending(c, d) && Forward(c, d)
            && (c.state == State.Closed ==> d == c)
  {
    hide ProcessFrames, Receive, SampleThere;
    if c.state != State.Closed && buf != [] && Receive(c, buf).Ok? {
      var a := Receive(c, buf).value;
      var c1 := c.(spaces := c.spaces.With(a.level, Recorded(c.spaces.At(a.level), a.pn)));
      ProcessFramesKeeps(c1, a.level, a.frames);
    }
  }
}
