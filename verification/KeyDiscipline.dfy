/** With a TLS that hands out keys twice, installed keys are never replaced. */
module KeyDiscipline {
  import opened Wrappers
  import opened Bytes
  import opened Protection
  import opened Tls
  import opened Connections
  import opened Runs
  import Frames
  import Lifecycle

  /** Keys beyond the Initial ones came from that many key changes. */
  ghost predicate Disciplined(c: Conn)
  {
    && HandsOutTwice(c.tls.oracle)
    && (c.spaces.handshake.keys.Some? ==> KeyChanges(c.tls) >= 1)
    && (c.spaces.appdata.keys.Some? ==> KeyChanges(c.tls) >= 2)
  }

  /** Keys stay what they are. */
  ghost predicate Stable(c: Conn, d: Conn)
  {
    forall l: Level :: c.spaces.At(l).keys.Some? ==> d.spaces.At(l).keys == c.spaces.At(l).keys
  }

  ghost predicate Steady(c: Conn, d: Conn)
  {
    Disciplined(d) && Stable(c, d) && KeyChanges(c.tls) <= KeyChanges(d.tls)
  }

  lemma SteadyApplication(c: Conn, d: Conn)
    requires Steady(c, d) && c.spaces.appdata.keys.Some?
    ensures Disciplined(d) && d.spaces.appdata.keys == c.spaces.appdata.keys
  {
    assert c.spaces.At(APPDATA) == c.spaces.appdata && d.spaces.At(APPDATA) == d.spaces.appdata;
    hide Disciplined;
  }

  lemma StableTrans(c: Conn, d: Conn, e: Conn)
    requires Stable(c, d) && Stable(d, e)
    ensures Stable(c, e)
  {
    hide Per.At;
  }

  /** Asking for output: keys come with it only if fewer than two sets came before. */
  lemma Asked(s: Session, level: Level)
    requires HandsOutTwice(s.oracle)
    ensures var (t, _, kc) := WriteHs(s, level);
            && t.oracle == s.oracle
            && (kc.Some? ==> KeyChanges(s) < 2 && KeyChanges(t) == KeyChanges(s) + 1)
            && (kc.None? ==> KeyChanges(t) == KeyChanges(s))
  {
    AfterWrite(s, level);
    assert Session(s.oracle, s.history) == s;
  }

  lemma InitialKeysSteady(c: Conn, keys: Keys)
    requires Disciplined(c) && KeyChanges(c.tls) >= 1
    ensures Steady(c, AfterInitialKeys(c, keys))
  {
    hide KeyChanges, Buffered;
    var c1 := if c.spaces.handshake.keys.Some? then c else WithKeys(c, HANDSHAKE, keys);
    Asked(c1.tls, HANDSHAKE);
    var (tls, data, _) := WriteHs(c1.tls, HANDSHAKE);
    BufferedSpaces(c1.(tls := tls), HANDSHAKE, data);
  }

  lemma HandshakeKeysSteady(c: Conn, keys: Keys)
    requires Disciplined(c) && KeyChanges(c.tls) >= 2
    ensures Steady(c, AfterHandshakeKeys(c, keys))
  {
    hide KeyChanges, Buffered;
    var c1 := if c.spaces.appdata.keys.Some? then c
              else WithKeys(c, APPDATA, keys).(state := Established);
    Asked(c1.tls, APPDATA);
    var (tls, data, _) := WriteHs(c1.tls, APPDATA);
    BufferedSpaces(c1.(tls := tls), APPDATA, data);
  }

  lemma BufferedSpaces(c: Conn, level: Level, data: Data)
    ensures Buffered(c, level, data).spaces == c.spaces && Buffered(c, level, data).tls == c.tls
  {
  }

  /** CRYPTO data at a level is only processed with that level's keys in place. */
  lemma FrameSteady(c: Conn, level: Level, f: Frames.Frame)
    requires Disciplined(c) && c.spaces.At(level).keys.Some?
    ensures Steady(c, ProcessFrame(c, level, f).0)
  {
    hide KeyChanges, Buffered, AfterInitialKeys, AfterHandshakeKeys;
    if f.Crypto? {
      AfterRead(c.tls, level, f.data);
      var (tls1, ok) := ReadHs(c.tls, level, f.data);
      Asked(tls1, level);
      var (tls2, out, kc) := WriteHs(tls1, level);
      var c1 := c.(tls := tls2);
      BufferedSpaces(c1, level, out);
      if kc.Some? {
        var c2 := Buffered(c1, level, out);
        if level == INITIAL {
          InitialKeysSteady(c2, kc.value.keys);
        } else if level == HANDSHAKE {
          HandshakeKeysSteady(c2, kc.value.keys);
        }
      }
    }
  }

  lemma {:induction false} FramesSteady(c: Conn, level: Level, fs: seq<Frames.Frame>)
    requires Disciplined(c) && c.spaces.At(level).keys.Some?
    ensures Steady(c, ProcessFrames(c, level, fs).0)
    decreases |fs|
  {
    hide ProcessFrame, Disciplined;
    if fs != [] {
      var c1 := ProcessFrame(c, level, fs[0]).0;
      FrameSteady(c, level, fs[0]);
      FramesSteady(c1, level, fs[1..]);
      StableTrans(c, c1, ProcessFrames(c1, level, fs[1..]).0);
    }
  }

  /** A datagram is only opened with keys for its level. */
  lemma ReceiveHasKeys(c: Conn, buf: Data)
    requires buf != [] && SampleThere(c, buf) && Receive(c, buf).Ok?
    ensures c.spaces.At(Receive(c, buf).value.level).keys.Some?
  {
    hide Open, OpenLong, Packets.ShortHeaderAt, Packets.LongHeaderAt, PnOffsetLong;
  }

  lemma IngestSteady(c: Conn, buf: Data)
    requires Disciplined(c) && SampleThere(c, buf)
    ensures Steady(c, Ingest(c, buf).0)
  {
    hide ProcessFrames, Receive, SampleThere, KeyChanges;
    if c.state != State.Closed && buf != [] && Receive(c, buf).Ok? {
      ReceiveHasKeys(c, buf);
      var a := Receive(c, buf).value;
      var c1 := c.(spaces := c.spaces.With(a.level, Recorded(c.spaces.At(a.level), a.pn)));
      FramesSteady(c1, a.level, a.frames);
      StableTrans(c, c1, ProcessFrames(c1, a.level, a.frames).0);
    }
  }

  lemma DepartSteady(c: Conn)
    requires Disciplined(c) && c.state != State.Closed
    ensures Steady(c, Depart(c).0)
  {
    Lifecycle.DepartKeeps(c);
    hide Depart, Waiting, KeyChanges;
  }

  lemma StepSteady(c: Conn, step: Step)
    requires Disciplined(c)
    ensures Steady(c, Next(c, step))
  {
    hide Ingest, Depart, SampleThere, RecvData, KeyChanges;
    match step
    case DoIngest(buf) =>
      if SampleThere(c, buf) {
        IngestSteady(c, buf);
      }
    case DoEgest(_) =>
      if c.state != State.Closed {
        DepartSteady(c);
      }
    case DoRecv(cap) => Lifecycle.RecvKeeps(c, cap);
    case DoSend(_) =>
  }

  /** In every run, keys that are in place are never replaced or removed. */
  lemma {:induction false} KeysNeverReplaced(c: Conn, steps: seq<Step>)
    requires Disciplined(c)
    ensures Disciplined(Run(c, steps)) && Stable(c, Run(c, steps))
    decreases |steps|
  {
    hide Next, Disciplined;
    if steps != [] {
      StepSteady(c, steps[0]);
      KeysNeverReplaced(Next(c, steps[0]), steps[1..]);
      StableTrans(c, Next(c, steps[0]), Run(c, steps));
    }
  }

  // ------------------------------------------------------------ without that discipline

  /** Handling Handshake-level output changes 1-RTT keys that are in place exactly when TLS hands
      out different ones with the output it is asked for last. */
  lemma OutputReplaces(c: Conn, keys: Keys)
    requires c.spaces.appdata.keys.Some?
    ensures AfterHandshakeKeys(c, keys).spaces.appdata.keys != c.spaces.appdata.keys
            <==> (var kc := WriteHs(c.tls, APPDATA).2;
                  kc.Some? && kc.value.keys != c.spaces.appdata.keys.value)
  {
    hide WriteHs;
    var (tls, data, kc) := WriteHs(c.tls, APPDATA);
    BufferedSpaces(c.(tls := tls), APPDATA, data);
  }

  lemma OutputKeepsPresent(c: Conn, keys: Keys, l: Level)
    requires c.spaces.At(l).keys.Some?
    ensures AfterInitialKeys(c, keys).spaces.At(l).keys == c.spaces.At(l).keys
    ensures l != APPDATA ==> AfterHandshakeKeys(c, keys).spaces.At(l).keys == c.spaces.At(l).keys
  {
    hide WriteHs, Buffered;
    var c1 := if c.spaces.handshake.keys.Some? then c else WithKeys(c, HANDSHAKE, keys);
    var (tls, data, _) := WriteHs(c1.tls, HANDSHAKE);
    BufferedSpaces(c1.(tls := tls), HANDSHAKE, data);
    var c2 := if c.spaces.appdata.keys.Some? then c
              else WithKeys(c, APPDATA, keys).(state := Established);
    var (tls2, data2, _) := WriteHs(c2.tls, APPDATA);
    BufferedSpaces(c2.(tls := tls2), APPDATA, data2);
  }

  /** The third output that would have to come with keys. */
  predicate HandsOutMore(c: Conn, data: Data)
  {
    var (tls1, ok) := ReadHs(c.tls, HANDSHAKE, data);
    var (tls2, _, first) := WriteHs(tls1, HANDSHAKE);
    ok && first.Some? && WriteHs(tls2, APPDATA).2.Some?
  }

  function KeysHandedOut(c: Conn, data: Data): Keys
    requires HandsOutMore(c, data)
  {
    WriteHs(WriteHs(ReadHs(c.tls, HANDSHAKE, data).0, HANDSHAKE).0, APPDATA).2.value.keys
  }

  /** For any TLS: a frame changes keys that are in place if and only if they are the 1-RTT keys
      and the frame is CRYPTO data that continues the Handshake stream, that TLS accepts, and that
      it answers with keys and then with keys again, different from those in place. */
  lemma FrameReplaces(c: Conn, level: Level, f: Frames.Frame, l: Level)
    requires c.spaces.At(l).keys.Some?
    ensures ProcessFrame(c, level, f).0.spaces.At(l).keys != c.spaces.At(l).keys
            <==> l == APPDATA && level == HANDSHAKE && f.Crypto?
                 && f.offset == c.cryptoRecvOffset.handshake && HandsOutMore(c, f.data)
                 && KeysHandedOut(c, f.data) != c.spaces.appdata.keys.value
  {
    hide Buffered, AfterInitialKeys, AfterHandshakeKeys, WriteHs, ReadHs;
    if f.Crypto? && f.offset == c.cryptoRecvOffset.At(level) && ReadHs(c.tls, level, f.data).1 {
      var tls1 := ReadHs(c.tls, level, f.data).0;
      var (tls2, out, kc) := WriteHs(tls1, level);
      var c1 := c.(tls := tls2);
      var c2 := Buffered(c1, level, out);
      BufferedSpaces(c1, level, out);
      if kc.Some? {
        OutputKeepsPresent(c2, kc.value.keys, l);
        if l == APPDATA {
          OutputReplaces(c2, kc.value.keys);
        }
      }
    }
  }

  /** An instance: a TLS that hands out the same keys with every output overwrites other 1-RTT
      keys at the next Handshake CRYPTO data. */
  lemma KeysOverwritten(c: Conn, k: Keys, data: Data)
    requires c.tls.oracle == Oracle((h, d) => true, h => ([], Some(OneRttKeys(k))))
    requires c.spaces.appdata.keys.Some? && c.spaces.appdata.keys.value != k
    ensures ProcessFrame(c, HANDSHAKE, Frames.Crypto(c.cryptoRecvOffset.handshake, data)).0
              .spaces.appdata.keys == Some(k)
  {
    hide Buffered;
    var tls1 := ReadHs(c.tls, HANDSHAKE, data).0;
    var (tls2, out, kc) := WriteHs(tls1, HANDSHAKE);
    BufferedSpaces(c.(tls := tls2), HANDSHAKE, out);
    var c2 := Buffered(c.(tls := tls2), HANDSHAKE, out);
    var (tls3, more, _) := WriteHs(c2.tls, APPDATA);
    BufferedSpaces(c2.(tls := tls3), APPDATA, more);
  }

  /** New connections are disciplined. */
  lemma StartsDisciplined(oracle: Oracle, keys: Keys, dst: Data, src: Data,
                          packet: Data, serverKeys: Data -> Keys)
    requires HandsOutTwice(oracle)
    ensures Connect(oracle, keys, dst, src).Ok? ==> Disciplined(Connect(oracle, keys, dst, src).value.0)
    ensures Accept(packet, oracle, serverKeys).Ok? ==>
              Disciplined(Accept(packet, oracle, serverKeys).value)
  {
    hide FirstInitial, OpenLong, Packets.LongHeaderAt, PnOffsetLong, HelloIn, KeyChanges, ServerHello;
    NothingYet(oracle);
    AfterWrite(Session(oracle, []), INITIAL);
    if Accept(packet, oracle, serverKeys).Ok? {
      var h := Packets.LongHeaderAt(packet).value.0;
      var k := serverKeys(h.dstCid);
      var hello := HelloIn(OpenLong(k.remote, packet, PnOffsetLong(h)).value.1);
      AfterRead(Session(oracle, []), INITIAL, hello);
      var tls := ReadHs(Session(oracle, []), INITIAL, hello).0;
      ServerHelloSteady(WithKeys(Fresh(Server, Handshaking, tls, h.version, h.srcCid, h.dstCid), INITIAL, k));
    }
  }

  lemma ServerHelloSteady(c: Conn)
    requires Disciplined(c) && KeyChanges(c.tls) == 0
    ensures Disciplined(ServerHello(c))
  {
    hide KeyChanges;
    Asked(c.tls, INITIAL);
    var tls1 := WriteHs(c.tls, INITIAL).0;
    Asked(tls1, HANDSHAKE);
  }
}
