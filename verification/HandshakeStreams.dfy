/** The CRYPTO streams: what TLS is fed in order, and what it writes framed without loss. */
module HandshakeStreams {
  import opened Wrappers
  import opened Bytes
  import opened Protection
  import opened Tls
  import opened Connections
  import opened Runs
  import Frames
  import Lifecycle

  // ------------------------------------------------------------ delivery to TLS

  /** TLS was fed exactly the first `offset` bytes of the peer's CRYPTO stream `w`. */
  ghost predicate InStep(c: Conn, l: Level, w: Data)
  {
    c.cryptoRecvOffset.At(l) <= |w| && Fed(c.tls.history, l) == w[..c.cryptoRecvOffset.At(l)]
  }

  /** Every CRYPTO frame is a slice of the stream `w`. */
  predicate Slices(fs: seq<Frames.Frame>, w: Data)
  {
    forall f :: f in fs && f.Crypto? ==>
      f.offset + |f.data| <= |w| && f.data == w[f.offset..f.offset + |f.data|]
  }

  ghost predicate SameFed(c: Conn, d: Conn)
  {
    && d.cryptoRecvOffset == c.cryptoRecvOffset
    && forall l: Level :: Fed(d.tls.history, l) == Fed(c.tls.history, l)
  }

  /** Asking TLS for output feeds it nothing. */
  lemma OutputFeedsNothing(c: Conn, data: Data, keys: Option<Keys>, level: Level)
    ensures SameFed(c, CryptoOutput(c, data, keys, level))
  {
    hide Fed, Per.At, Per.With;
    AfterWrite(c.tls, HANDSHAKE);
    AfterWrite(c.tls, APPDATA);
  }

  lemma FrameInStep(c: Conn, level: Level, f: Frames.Frame, l: Level, w: Data)
    requires InStep(c, l, w) && (level == l ==> Slices([f], w))
    ensures InStep(ProcessFrame(c, level, f).0, l, w)
  {
    hide CryptoOutput, Fed;
    if f.Crypto? && f.offset == c.cryptoRecvOffset.At(level) {
      AfterRead(c.tls, level, f.data);
      var (tls1, ok) := ReadHs(c.tls, level, f.data);
      AfterWrite(tls1, level);
      var (tls2, out, kc) := WriteHs(tls1, level);
      OutputFeedsNothing(c.(tls := tls2), out, KeysOf(kc), level);
      if level == l {
        assert f in [f];
        assert w[..f.offset] + w[f.offset..f.offset + |f.data|] == w[..f.offset + |f.data|];
      }
    }
  }

  lemma {:induction false} FramesInStep(c: Conn, level: Level, fs: seq<Frames.Frame>, l: Level, w: Data)
    requires InStep(c, l, w) && (level == l ==> Slices(fs, w))
    ensures InStep(ProcessFrames(c, level, fs).0, l, w)
    decreases |fs|
  {
    hide ProcessFrame, InStep;
    if fs != [] {
      FrameInStep(c, level, fs[0], l, w);
      FramesInStep(ProcessFrame(c, level, fs[0]).0, level, fs[1..], l, w);
    }
  }

  /** The CRYPTO frames that a datagram brings at level `l` are slices of `w`. */
  ghost predicate BringsSlices(c: Conn, step: Step, l: Level, w: Data)
  {
    (step.DoIngest? && step.buf != [] && SampleThere(c, step.buf) && Receive(c, step.buf).Ok?
     && Receive(c, step.buf).value.level == l)
    ==> Slices(Receive(c, step.buf).value.frames, w)
  }

  lemma StepInStep(c: Conn, step: Step, l: Level, w: Data)
    requires InStep(c, l, w) && BringsSlices(c, step, l, w)
    ensures InStep(Next(c, step), l, w)
  {
    hide ProcessFrames, Receive, SampleThere, Slices, Fed, RecvData, Depart, Recorded;
    match step
    case DoSend(_) =>
    case DoRecv(cap) => Lifecycle.RecvKeeps(c, cap);
    case DoEgest(_) =>
      if c.state != State.Closed {
        DepartFeedsNothing(c);
      }
    case DoIngest(buf) =>
      if SampleThere(c, buf) && c.state != State.Closed && buf != [] && Receive(c, buf).Ok? {
        var a := Receive(c, buf).value;
        var c1 := c.(spaces := c.spaces.With(a.level, Recorded(c.spaces.At(a.level), a.pn)));
        FramesInStep(c1, a.level, a.frames, l, w);
      }
  }

  lemma DepartFeedsNothing(c: Conn)
    requires c.state != State.Closed
    ensures var d := Depart(c).0;
            d.tls.history == c.tls.history && d.cryptoRecvOffset == c.cryptoRecvOffset
  {
    hide Waiting, Sealing;
  }

  ghost predicate RunBringsSlices(c: Conn, steps: seq<Step>, l: Level, w: Data)
    decreases |steps|
  {
    steps == [] || (BringsSlices(c, steps[0], l, w)
                    && RunBringsSlices(Next(c, steps[0]), steps[1..], l, w))
  }

  /** Exactly once, in order: whatever datagrams are lost, repeated or reordered, if the CRYPTO
      frames of a level are slices of one byte string, TLS is fed a prefix of that string, as
      long as the receive offset says. */
  lemma {:induction false} FedInOrder(c: Conn, steps: seq<Step>, l: Level, w: Data)
    requires InStep(c, l, w) && RunBringsSlices(c, steps, l, w)
    ensures InStep(Run(c, steps), l, w)
    decreases |steps|
  {
    hide InStep, BringsSlices, Next;
    if steps != [] {
      StepInStep(c, steps[0], l, w);
      FedInOrder(Next(c, steps[0]), steps[1..], l, w);
    }
  }

  // ------------------------------------------------------------ output of TLS

  /** What TLS wrote at a level is what was framed so far and what still waits. */
  ghost predicate Conserved(c: Conn, l: Level, framed: Data)
  {
    Written(c.tls, l) == framed + c.pendingCrypto.At(l)
  }

  /** Output that is taken from TLS is buffered where it belongs. */
  lemma WriteBuffered(c: Conn, level: Level, l: Level, framed: Data)
    requires Conserved(c, l, framed)
    ensures var (tls, data, _) := WriteHs(c.tls, level);
            Conserved(Buffered(c.(tls := tls), level, data), l, framed)
  {
    hide Written, Per.At, Per.With;
    AfterWrite(c.tls, level);
    var (tls, data, _) := WriteHs(c.tls, level);
    assert framed + (c.pendingCrypto.At(l) + data) == framed + c.pendingCrypto.At(l) + data;
    assert framed + c.pendingCrypto.At(l) + [] == framed + c.pendingCrypto.At(l);
  }

  lemma KeysConserve(c: Conn, keys: Keys, l: Level, framed: Data)
    requires Conserved(c, l, framed)
    ensures Conserved(AfterInitialKeys(c, keys), l, framed)
    ensures Conserved(AfterHandshakeKeys(c, keys), l, framed)
  {
    hide Written, Per.At, Per.With, Buffered, WriteHs;
    var c1 := if c.spaces.handshake.keys.Some? then c else WithKeys(c, HANDSHAKE, keys);
    WriteBuffered(c1, HANDSHAKE, l, framed);
    var c2 := if c.spaces.appdata.keys.Some? then c
              else WithKeys(c, APPDATA, keys).(state := Established);
    WriteBuffered(c2, APPDATA, l, framed);
  }

  lemma FrameConserves(c: Conn, level: Level, f: Frames.Frame, l: Level, framed: Data)
    requires Conserved(c, l, framed)
    ensures Conserved(ProcessFrame(c, level, f).0, l, framed)
  {
    hide Written, Per.At, Per.With, Buffered, WriteHs, ReadHs, AfterInitialKeys, AfterHandshakeKeys;
    if f.Crypto? {
      AfterRead(c.tls, level, f.data);
      var (tls1, ok) := ReadHs(c.tls, level, f.data);
      var c1 := c.(tls := tls1);
      assert Conserved(c1, l, framed);
      WriteBuffered(c1, level, l, framed);
      var (tls2, out, kc) := WriteHs(tls1, level);
      var c2 := Buffered(c1.(tls := tls2), level, out);
      assert c1.(tls := tls2) == c.(tls := tls2);
      if kc.Some? {
        KeysConserve(c2, kc.value.keys, l, framed);
      }
    }
  }

  lemma {:induction false} FramesConserve(c: Conn, level: Level, fs: seq<Frames.Frame>, l: Level,
                                          framed: Data)
    requires Conserved(c, l, framed)
    ensures Conserved(ProcessFrames(c, level, fs).0, l, framed)
    decreases |fs|
  {
    hide ProcessFrame, Conserved;
    if fs != [] {
      FrameConserves(c, level, fs[0], l, framed);
      FramesConserve(ProcessFrame(c, level, fs[0]).0, level, fs[1..], l, framed);
    }
  }

  /** The CRYPTO bytes in a frame list. */
  function CryptoBytes(fs: seq<Frames.Frame>): Data
  {
    if fs == [] then []
    else (if fs[0].Crypto? then fs[0].data else []) + CryptoBytes(fs[1..])
  }

  /** The CRYPTO bytes framed at a level by a run's packets. */
  function Framed(out: seq<Departure>, l: Level): Data
  {
    if out == [] then []
    else (if !out[0].Idle? && out[0].level == l then CryptoBytes(out[0].frames) else [])
         + Framed(out[1..], l)
  }

  lemma {:induction false} NoCrypto(fs: seq<Frames.Frame>)
    requires forall f :: f in fs ==> !f.Crypto?
    ensures CryptoBytes(fs) == []
  {
    if fs != [] {
      NoCrypto(fs[1..]);
    }
  }

  /** All pending CRYPTO bytes of a level go into its next packet, and nothing else does. */
  lemma WaitingCrypto(c: Conn, level: Level)
    ensures CryptoBytes(Waiting(c, level)) == c.pendingCrypto.At(level)
  {
    var rest := AckPart(c, level) + DonePart(c, level) + StreamPart(c, level);
    NoCrypto(rest);
    if c.pendingCrypto.At(level) == [] {
      assert Waiting(c, level) == rest;
    } else {
      assert Waiting(c, level)[1..] == rest;
    }
  }

  lemma DepartConserves(c: Conn, l: Level, framed: Data)
    requires Conserved(c, l, framed) && c.state != State.Closed
    ensures Conserved(Depart(c).0, l, framed + Framed([Depart(c).1], l))
  {
    Lifecycle.DepartKeeps(c);
    hide Depart, Waiting, Written;
    var out := Depart(c).1;
    assert [out][1..] == [];
    if !out.Idle? {
      WaitingCrypto(c, out.level);
      assert framed + (CryptoBytes(out.frames) + []) == framed + CryptoBytes(out.frames) + [];
    }
    assert framed + [] == framed;
  }

  lemma StepConserves(c: Conn, step: Step, l: Level, framed: Data)
    requires Conserved(c, l, framed)
    ensures Conserved(Next(c, step), l, framed + Framed(Leaving(c, step), l))
  {
    hide ProcessFrames, Receive, SampleThere, Written, RecvData, Depart, Recorded;
    assert framed + Framed([], l) == framed;
    match step
    case DoSend(_) =>
    case DoRecv(cap) => Lifecycle.RecvKeeps(c, cap);
    case DoEgest(_) =>
      if c.state != State.Closed {
        DepartConserves(c, l, framed);
        if Depart(c).1.Idle? {
          assert framed + Framed([Depart(c).1], l) == framed by { assert [Depart(c).1][1..] == []; }
        }
      }
    case DoIngest(buf) =>
      if SampleThere(c, buf) && c.state != State.Closed && buf != [] && Receive(c, buf).Ok? {
        var a := Receive(c, buf).value;
        var c1 := c.(spaces := c.spaces.With(a.level, Recorded(c.spaces.At(a.level), a.pn)));
        FramesConserve(c1, a.level, a.frames, l, framed);
      }
  }

  lemma FramedConcat(a: seq<Departure>, b: seq<Departure>, l: Level)
    requires |a| <= 1
    ensures Framed(a + b, l) == Framed(a, l) + Framed(b, l)
  {
    if |a| == 1 {
      assert (a + b)[1..] == b && a[1..] == [];
    } else {
      assert a + b == b;
    }
  }

  /** Handshake output is conserved over every run: at each level the bytes TLS wrote are, in
      order, those framed so far and those still pending. */
  lemma {:induction false} OutputConserved(c: Conn, steps: seq<Step>, l: Level, framed: Data)
    requires Conserved(c, l, framed)
    ensures Conserved(Run(c, steps), l, framed + Framed(Departures(c, steps), l))
    decreases |steps|
  {
    hide Next, Leaving, Conserved;
    if steps == [] {
      assert framed + [] == framed;
    } else {
      var d := Next(c, steps[0]);
      var first, rest := Leaving(c, steps[0]), Departures(d, steps[1..]);
      StepConserves(c, steps[0], l, framed);
      OutputConserved(d, steps[1..], l, framed + Framed(first, l));
      Lifecycle.LeavingOne(c, steps[0]);
      FramedConcat(first, rest, l);
      assert framed + Framed(first, l) + Framed(rest, l) == framed + (Framed(first, l) + Framed(rest, l));
    }
  }
}
