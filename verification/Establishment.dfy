/** From `connect` and `accept` to two joined connections: the runs the stream law starts from. */
module Establishment {
  import opened Wrappers
  import opened Bytes
  import opened Packets
  import opened Protection
  import opened Tls
  import opened Connections
  import opened Runs
  import opened StreamLink
  import Acknowledgements
  import KeyDiscipline
  import Lifecycle

  // ------------------------------------------------------------ what runs keep

  /** The identity of a connection. */
  predicate SameIds(c: Conn, d: Conn)
  {
    d.dstCid == c.dstCid && d.srcCid == c.srcCid && d.version == c.version
  }

  lemma StepIds(c: Conn, step: Step)
    ensures SameIds(c, Next(c, step))
  {
    hide Ingest, Depart, SampleThere, RecvData;
    match step
    case DoIngest(buf) =>
      if SampleThere(c, buf) {
        IngestKeeps(c, buf);
      }
    case DoEgest(_) =>
      if c.state != State.Closed {
        DepartIds(c);
      }
    case DoRecv(cap) => Lifecycle.RecvKeeps(c, cap);
    case DoSend(_) =>
  }

  lemma DepartIds(c: Conn)
    ensures SameIds(c, Depart(c).0)
  {
    hide Waiting, Sealing;
  }

  lemma {:induction false} RunIds(c: Conn, steps: seq<Step>)
    ensures SameIds(c, Run(c, steps))
    decreases |steps|
  {
    hide Next;
    if steps != [] {
      StepIds(c, steps[0]);
      RunIds(Next(c, steps[0]), steps[1..]);
    }
  }

  /** The largest number received in a space moves only with an arrival there. */
  lemma StepLargest(c: Conn, step: Step, level: Level)
    requires forall pn :: pn in Acknowledgements.Arrivals(c, step, level) ==> pn == 0
    ensures Next(c, step).spaces.At(level).largestRecvPn == c.spaces.At(level).largestRecvPn
  {
    hide ProcessFrames, Receive, Depart, SampleThere, RecvData;
    match step
    case DoIngest(buf) =>
      if c.state != State.Closed && buf != [] && SampleThere(c, buf) && Receive(c, buf).Ok? {
        var a := Receive(c, buf).value;
        var c1 := c.(spaces := c.spaces.With(a.level, Recorded(c.spaces.At(a.level), a.pn)));
        ProcessFramesKeeps(c1, a.level, a.frames);
        var d := ProcessFrames(c1, a.level, a.frames).0;
        if a.level == level {
          assert Acknowledgements.Arrivals(c, step, level) == [a.pn];
          assert a.pn in Acknowledgements.Arrivals(c, step, level);
        }
        assert d.spaces.At(level).largestRecvPn == c1.spaces.At(level).largestRecvPn;
      }
    case DoEgest(_) =>
      if c.state != State.Closed {
        DepartLargest(c, level);
      }
    case DoRecv(cap) => Lifecycle.RecvKeeps(c, cap);
    case DoSend(_) =>
  }

  lemma DepartLargest(c: Conn, level: Level)
    requires c.state != State.Closed
    ensures Depart(c).0.spaces.At(level).largestRecvPn == c.spaces.At(level).largestRecvPn
  {
    Lifecycle.DepartKeeps(c);
    hide Depart, Waiting, Ready, Lifecycle.Progress, Streaming, Finishing;
  }

  lemma {:induction false} RunLargest(c: Conn, steps: seq<Step>, level: Level)
    requires forall pn :: pn in Acknowledgements.AllArrivals(c, steps, level) ==> pn == 0
    ensures Run(c, steps).spaces.At(level).largestRecvPn == c.spaces.At(level).largestRecvPn
    decreases |steps|
  {
    hide Next, Acknowledgements.Arrivals;
    if steps != [] {
      var first := Acknowledgements.Arrivals(c, steps[0], level);
      var rest := Acknowledgements.AllArrivals(Next(c, steps[0]), steps[1..], level);
      assert Acknowledgements.AllArrivals(c, steps, level) == first + rest;
      assert forall pn :: pn in first ==> pn in first + rest;
      assert forall pn :: pn in rest ==> pn in first + rest;
      StepLargest(c, steps[0], level);
      RunLargest(Next(c, steps[0]), steps[1..], level);
    }
  }

  /** What the application gave to `send_data` in a run. */
  function Given(steps: seq<Step>): Data
  {
    if steps == [] then [] else (if steps[0].DoSend? then steps[0].data else []) + Given(steps[1..])
  }

  /** The stream offset only grows, and while it does not, all that was given is pending. */
  lemma StepPending(c: Conn, step: Step)
    ensures var d := Next(c, step);
            && d.streamSendOffset >= c.streamSendOffset
            && (d.streamSendOffset == c.streamSendOffset ==>
                  d.pendingAppData == c.pendingAppData + (if step.DoSend? then step.data else []))
  {
    hide Ingest, Depart, SampleThere, RecvData;
    assert c.pendingAppData + [] == c.pendingAppData;
    match step
    case DoIngest(buf) =>
      if SampleThere(c, buf) {
        IngestKeeps(c, buf);
      }
    case DoEgest(_) =>
      if c.state != State.Closed {
        DepartPending(c);
      }
    case DoRecv(cap) => Lifecycle.RecvKeeps(c, cap);
    case DoSend(_) =>
  }

  lemma DepartPending(c: Conn)
    requires c.state != State.Closed
    ensures var d := Depart(c).0;
            && d.streamSendOffset >= c.streamSendOffset
            && (d.streamSendOffset == c.streamSendOffset ==> d.pendingAppData == c.pendingAppData)
  {
    hide Waiting, Sealing;
  }

  lemma {:induction false} RunPending(c: Conn, steps: seq<Step>)
    ensures var d := Run(c, steps);
            && d.streamSendOffset >= c.streamSendOffset
            && (d.streamSendOffset == c.streamSendOffset ==>
                  d.pendingAppData == c.pendingAppData + Given(steps))
    decreases |steps|
  {
    hide Next;
    if steps == [] {
      assert c.pendingAppData + [] == c.pendingAppData;
    } else {
      StepPending(c, steps[0]);
      RunPending(Next(c, steps[0]), steps[1..]);
      var first := if steps[0].DoSend? then steps[0].data else [];
      assert c.pendingAppData + first + Given(steps[1..]) == c.pendingAppData + (first + Given(steps[1..]));
    }
  }

  // ------------------------------------------------------------ joined

  /** A connection as its constructor leaves it. */
  ghost predicate New(c: Conn)
  {
    && KeyDiscipline.Disciplined(c)
    && c.spaces.appdata.nextSendPn == 0 && c.spaces.appdata.largestRecvPn == 0
    && c.pendingAppData == [] && c.streamSendOffset == 0
  }

  lemma ClientIsNew(oracle: Oracle, keys: Keys, dst: Data, src: Data)
    requires HandsOutTwice(oracle) && Connect(oracle, keys, dst, src).Ok?
    ensures var c := Connect(oracle, keys, dst, src).value.0;
            New(c) && c.dstCid == dst && c.srcCid == src
  {
    KeyDiscipline.StartsDisciplined(oracle, keys, dst, src, [], _ => keys);
    hide FirstInitial, KeyDiscipline.Disciplined;
  }

  lemma ServerIsNew(packet: Data, oracle: Oracle, serverKeys: Data -> Keys)
    requires HandsOutTwice(oracle) && Accept(packet, oracle, serverKeys).Ok?
    ensures New(Accept(packet, oracle, serverKeys).value)
  {
    KeyDiscipline.StartsDisciplined(oracle, serverKeys([]), [], [], packet, serverKeys);
    hide OpenLong, PnOffsetLong, HelloIn, KeyDiscipline.Disciplined, LongHeaderAt, ServerHello;
    var h := LongHeaderAt(packet).value.0;
    var keys := serverKeys(h.dstCid);
    var hello := HelloIn(OpenLong(keys.remote, packet, PnOffsetLong(h)).value.1);
    var tls := ReadHs(Session(oracle, []), INITIAL, hello).0;
    HelloSendsNothing(WithKeys(Fresh(Server, Handshaking, tls, h.version, h.srcCid, h.dstCid), INITIAL, keys));
  }

  lemma HelloSendsNothing(c: Conn)
    ensures var d := ServerHello(c);
            && d.spaces.appdata == c.spaces.appdata.(keys := d.spaces.appdata.keys)
            && d.pendingAppData == c.pendingAppData && d.streamSendOffset == c.streamSendOffset
  {
    hide WriteHs;
  }

  /** The ends of two runs are ready for the stream law from `a` to `b`: `a` is established, it has
      sent no stream data and at most its first application packet, nothing but a packet with that
      number has reached `b` there, and both hold matching keys. */
  ghost predicate Prepared(a: Conn, b0: Conn, stepsB: seq<Step>)
  {
    var b := Run(b0, stepsB);
    && a.state == Established && a.spaces.appdata.nextSendPn <= 1 && a.streamSendOffset == 0
    && (forall pn :: pn in Acknowledgements.AllArrivals(b0, stepsB, APPDATA) ==> pn == 0)
    && a.spaces.appdata.keys.Some? && b.spaces.appdata.keys.Some?
    && Opens(a.spaces.appdata.keys.value.local, b.spaces.appdata.keys.value.remote)
  }

  /** Two runs from new connections with connection IDs of one length end joined, and all that was
      given to `a` is pending. */
  lemma RunsJoin(a0: Conn, stepsA: seq<Step>, b0: Conn, stepsB: seq<Step>)
    requires New(a0) && New(b0) && |a0.dstCid| == |b0.dstCid| <= MAX_CID_LEN
    requires Prepared(Run(a0, stepsA), b0, stepsB)
    ensures var a, b := Run(a0, stepsA), Run(b0, stepsB);
            && Joined(a, b) && Expected(b, a.spaces.appdata.nextSendPn, 0)
            && a.pendingAppData == Given(stepsA)
  {
    hide Run, Acknowledgements.AllArrivals, Opens, KeyDiscipline.Disciplined;
    KeyDiscipline.KeysNeverReplaced(a0, stepsA);
    KeyDiscipline.KeysNeverReplaced(b0, stepsB);
    RunIds(a0, stepsA);
    RunIds(b0, stepsB);
    RunLargest(b0, stepsB, APPDATA);
    RunPending(a0, stepsA);
    assert [] + Given(stepsA) == Given(stepsA);
  }

  /** End-to-end conservation from new connections on: after any two such runs and any possible
      run of the link that follows, the bytes read, buffered, in flight and pending are in this
      order those that `b` already had and all those ever given to `a`; the STREAM frames tile the
      stream from 0 on. */
  lemma RunsConserve(a0: Conn, stepsA: seq<Step>, b0: Conn, stepsB: seq<Step>, es: seq<StreamLink.Event>)
    requires New(a0) && New(b0) && |a0.dstCid| == |b0.dstCid| <= MAX_CID_LEN
    requires Prepared(Run(a0, stepsA), b0, stepsB)
    requires AllPossible(Start(Run(a0, stepsA), Run(b0, stepsB)), es)
    ensures var start := Start(Run(a0, stepsA), Run(b0, stepsB));
            var end := After(start, es);
            && end.read + end.b.receivedAppData + InFlight(end.flight) + end.a.pendingAppData
               == start.b.receivedAppData + Given(stepsA) + SentBy(es)
            && Tiles(end.framed, 0, end.a.streamSendOffset)
  {
    hide Run, AllPossible, After, Tiles, InFlight, Joined, Numbered, New;
    RunsJoin(a0, stepsA, b0, stepsB);
    var start := Start(Run(a0, stepsA), Run(b0, stepsB));
    LinkStarts(start.a, start.b);
    StreamConserved(start, es, 0);
    SentGrows(start, es);
  }

  /** From a client to the server that accepted any first packet with connection IDs of that
      length, its own or another's. */
  lemma ClientToServer(oracle: Oracle, keys: Keys, dst: Data, src: Data, stepsA: seq<Step>,
                       packet: Data, serverOracle: Oracle, serverKeys: Data -> Keys, stepsB: seq<Step>,
                       es: seq<StreamLink.Event>)
    requires HandsOutTwice(oracle) && HandsOutTwice(serverOracle)
    requires Connect(oracle, keys, dst, src).Ok? && Accept(packet, serverOracle, serverKeys).Ok?
    requires |dst| == |Accept(packet, serverOracle, serverKeys).value.dstCid| <= MAX_CID_LEN
    requires var a0, b0 := Connect(oracle, keys, dst, src).value.0,
                           Accept(packet, serverOracle, serverKeys).value;
             Prepared(Run(a0, stepsA), b0, stepsB)
             && AllPossible(Start(Run(a0, stepsA), Run(b0, stepsB)), es)
    ensures var a0, b0 := Connect(oracle, keys, dst, src).value.0,
                          Accept(packet, serverOracle, serverKeys).value;
            var start := Start(Run(a0, stepsA), Run(b0, stepsB));
            var end := After(start, es);
            && Joined(start.a, start.b)
            && end.read + end.b.receivedAppData + InFlight(end.flight) + end.a.pendingAppData
               == start.b.receivedAppData + Given(stepsA) + SentBy(es)
            && Tiles(end.framed, 0, end.a.streamSendOffset)
  {
    hide Run, AllPossible, After, Tiles, InFlight, Connect, Accept, Prepared, New, Joined;
    var a0, b0 := Connect(oracle, keys, dst, src).value.0, Accept(packet, serverOracle, serverKeys).value;
    ClientIsNew(oracle, keys, dst, src);
    ServerIsNew(packet, serverOracle, serverKeys);
    RunsJoin(a0, stepsA, b0, stepsB);
    RunsConserve(a0, stepsA, b0, stepsB, es);
  }

  /** And from that server to the client. The server's first application packet is the one with
      HANDSHAKE_DONE, made before it is established; whether it arrived does not matter. */
  lemma ServerToClient(oracle: Oracle, keys: Keys, dst: Data, src: Data, stepsB: seq<Step>,
                       packet: Data, serverOracle: Oracle, serverKeys: Data -> Keys, stepsA: seq<Step>,
                       es: seq<StreamLink.Event>)
    requires HandsOutTwice(oracle) && HandsOutTwice(serverOracle)
    requires Connect(oracle, keys, dst, src).Ok? && Accept(packet, serverOracle, serverKeys).Ok?
    requires |dst| == |Accept(packet, serverOracle, serverKeys).value.dstCid| <= MAX_CID_LEN
    requires var a0, b0 := Accept(packet, serverOracle, serverKeys).value,
                           Connect(oracle, keys, dst, src).value.0;
             Prepared(Run(a0, stepsA), b0, stepsB)
             && AllPossible(Start(Run(a0, stepsA), Run(b0, stepsB)), es)
    ensures var a0, b0 := Accept(packet, serverOracle, serverKeys).value,
                          Connect(oracle, keys, dst, src).value.0;
            var start := Start(Run(a0, stepsA), Run(b0, stepsB));
            var end := After(start, es);
            && Joined(start.a, start.b)
            && end.read + end.b.receivedAppData + InFlight(end.flight) + end.a.pendingAppData
               == start.b.receivedAppData + Given(stepsA) + SentBy(es)
            && Tiles(end.framed, 0, end.a.streamSendOffset)
  {
    hide Run, AllPossible, After, Tiles, InFlight, Connect, Accept, Prepared, New, Joined;
    var a0, b0 := Accept(packet, serverOracle, serverKeys).value, Connect(oracle, keys, dst, src).value.0;
    ClientIsNew(oracle, keys, dst, src);
    ServerIsNew(packet, serverOracle, serverKeys);
    RunsJoin(a0, stepsA, b0, stepsB);
    RunsConserve(a0, stepsA, b0, stepsB, es);
  }
}
