/**
 Application data from one endpoint to the other: a sender and a receiver joined by a network
 that hands over the sender's application packets one by one, in order.
 */
module StreamLink {
  import opened Wrappers
  import opened Bytes
  import opened Packets
  import opened Protection
  import opened Tls
  import opened Connections
  import opened Runs
  import opened KeyDiscipline
  import opened Delivery
  import Frames
  import FrameLaws
  import PacketLaws
  import ProtectionLaws
  import Lifecycle

  /** `sent` and `read` log what the application gave to `a` and took from `b`; `framed` logs
      the STREAM frames of `a`'s packets. */
  datatype Link = Link(
    a: Conn,
    b: Conn,
    flight: seq<Departure>,
    sent: Data,
    read: Data,
    framed: seq<Frames.Frame>)

  datatype Event =
    | Send(data: Data)       // the application queues data at a
    | Emit(cap: nat)         // a makes a packet
    | Hear(buf: Data)        // a is handed any datagram at all
    | Deliver                // b ingests the oldest packet in flight
    | Read(cap: nat)         // the application reads at b
    | ReadBack(cap: nat)     // the application reads at a
    | Peer(step: Step)       // b queues data or makes a packet of its own
    | Aside(buf: Data)       // b is handed a datagram of another packet number space

  /** The events the conservation law is about: packets fit the caller's buffer and are sealed,
      what is delivered is ingested with success, and other datagrams are refused or bring no
      stream data. */
  predicate Possible(l: Link, e: Event)
  {
    match e
    case Emit(cap) => l.a.state != State.Closed && Leaves(Depart(l.a).1, cap)
    case Hear(buf) => SampleThere(l.a, buf)
    case Deliver => l.flight != [] && Succeeds(l.b, l.flight[0])
    case Peer(step) => step.DoSend? || step.DoEgest?
    case Aside(buf) => buf != [] && SampleThere(l.b, buf) && NoStreamIn(l.b, buf)
    case _ => true
  }

  predicate Leaves(out: Departure, cap: nat)
  {
    !out.Lost? && (out.Sent? ==> |out.packet| <= cap)
  }

  predicate Succeeds(b: Conn, out: Departure)
  {
    out.Sent? && SampleThere(b, out.packet) && Ingest(b, out.packet).1.Ok?
  }

  /** The datagram is refused, or handshake frames are processed that are not STREAM frames. */
  predicate NoStreamIn(b: Conn, buf: Data)
    requires buf != [] && SampleThere(b, buf)
  {
    match Receive(b, buf)
    case Err(_) => true
    case Ok(a) => a.level != APPDATA && StreamBytes(a.frames) == [] && Arrived(b, a).1.Pass?
  }

  /** The STREAM frames of a frame list. */
  function StreamFrames(fs: seq<Frames.Frame>): seq<Frames.Frame>
  {
    if fs == [] then []
    else (if fs[0].Stream? then [fs[0]] else []) + StreamFrames(fs[1..])
  }

  /** Packets of the application space fly to `b`; those of the other spaces do not matter. */
  function Emitted(l: Link): Link
  {
    var (a, out) := Depart(l.a);
    if out.Sent? && out.level == APPDATA
    then l.(a := a, flight := l.flight + [out], framed := l.framed + StreamFrames(out.frames))
    else l.(a := a)
  }

  function Queued(l: Link, data: Data): Link
  {
    l.(a := SendData(l.a, data), sent := l.sent + data)
  }

  function Handed(l: Link): Link
    requires l.flight != [] && Succeeds(l.b, l.flight[0])
  {
    l.(b := Ingest(l.b, l.flight[0].packet).0, flight := l.flight[1..])
  }

  function ReadAt(l: Link, cap: nat): Link
  {
    var (b, data) := RecvData(l.b, cap);
    l.(b := b, read := l.read + data)
  }

  function Happen(l: Link, e: Event): Link
    requires Possible(l, e)
  {
    match e
    case Send(data) => Queued(l, data)
    case Emit(_) => Emitted(l)
    case Hear(buf) => l.(a := Ingest(l.a, buf).0)
    case Deliver => Handed(l)
    case Read(cap) => ReadAt(l, cap)
    case Peer(step) => l.(b := Next(l.b, step))
    case ReadBack(cap) => l.(a := RecvData(l.a, cap).0)
    case Aside(buf) => l.(b := Ingest(l.b, buf).0)
  }

  /** The stream bytes of the packets in flight. */
  function InFlight(flight: seq<Departure>): Data
  {
    if flight == [] then []
    else (if flight[0].Sent? then StreamBytes(flight[0].frames) else []) + InFlight(flight[1..])
  }

  /** Nothing is lost, repeated or reordered. */
  ghost predicate Balanced(l: Link)
  {
    l.read + l.b.receivedAppData + InFlight(l.flight) + l.a.pendingAppData == l.sent
  }

  /** The STREAM frames of a run tile the stream from `start` on, without gap or overlap. */
  predicate Tiles(fs: seq<Frames.Frame>, start: nat, end: nat)
  {
    if fs == [] then start == end
    else fs[0].Stream? && fs[0].streamId == 0 && !fs[0].fin && fs[0].offset == start
         && Tiles(fs[1..], start + |fs[0].data|, end)
  }

  /** A packet in flight is what `a` made of its frames. */
  ghost predicate Genuine(a: Conn, out: Departure, pn: nat)
  {
    && out.Sent? && out.level == APPDATA && out.pn == pn
    && a.spaces.appdata.keys.Some?
    && SealPacket(a.spaces.appdata.keys.value.local, APPDATA, a.version, a.dstCid, a.srcCid,
                  out.frames, pn, EncodedPnLen(pn), true) == Ok(out.packet)
    && Sturdy(out.frames)
  }

  /** The packet numbers in flight continue what `b` has received. */
  function Expected(b: Conn, next: nat, flying: nat): bool
  {
    next >= flying && b.spaces.appdata.largestRecvPn == (if next - flying == 0 then 0 else next - flying - 1)
  }

  /** The packets in flight are `a`'s, numbered from `pn` on. */
  ghost predicate AllGenuine(a: Conn, flight: seq<Departure>, pn: nat)
  {
    flight == [] || (Genuine(a, flight[0], pn) && AllGenuine(a, flight[1..], pn + 1))
  }

  ghost predicate Numbered(a: Conn, b: Conn, flight: seq<Departure>)
  {
    var next := a.spaces.appdata.nextSendPn;
    Expected(b, next, |flight|) && AllGenuine(a, flight, next - |flight|)
  }

  /** Two endpoints that hold a matching pair of 1-RTT keys and connection IDs of one length. */
  ghost predicate Joined(a: Conn, b: Conn)
  {
    && (a.state == Established || a.state == State.Closed)
    && Disciplined(a) && Disciplined(b)
    && a.spaces.appdata.keys.Some? && b.spaces.appdata.keys.Some?
    && Opens(a.spaces.appdata.keys.value.local, b.spaces.appdata.keys.value.remote)
    && |a.dstCid| == |b.dstCid| <= MAX_CID_LEN
  }

  ghost predicate Invariant(l: Link, start: nat)
  {
    Joined(l.a, l.b) && Numbered(l.a, l.b, l.flight) && Balanced(l) && Tiles(l.framed, start, l.a.streamSendOffset)
  }

  // ------------------------------------------------------------ lists

  lemma {:induction false} StreamBytesConcat(fs: seq<Frames.Frame>, gs: seq<Frames.Frame>)
    ensures StreamBytes(fs + gs) == StreamBytes(fs) + StreamBytes(gs)
    ensures StreamFrames(fs + gs) == StreamFrames(fs) + StreamFrames(gs)
  {
    if fs == [] {
      assert fs + gs == gs;
    } else {
      assert (fs + gs)[1..] == fs[1..] + gs;
      StreamBytesConcat(fs[1..], gs);
    }
  }

  lemma {:induction false} NoStream(fs: seq<Frames.Frame>)
    requires forall f :: f in fs ==> !f.Stream?
    ensures StreamBytes(fs) == [] && StreamFrames(fs) == []
  {
    if fs != [] {
      NoStream(fs[1..]);
    }
  }

  lemma InFlightStep(flight: seq<Departure>)
    requires flight != []
    ensures InFlight(flight)
         == (if flight[0].Sent? then StreamBytes(flight[0].frames) else []) + InFlight(flight[1..])
  {
  }

  lemma {:induction false} InFlightSnoc(flight: seq<Departure>, out: Departure)
    requires out.Sent?
    ensures InFlight(flight + [out]) == InFlight(flight) + StreamBytes(out.frames)
  {
    hide StreamBytes;
    if flight == [] {
      assert flight + [out] == [out] && [out][1..] == [];
    } else {
      var longer := flight + [out];
      assert longer[1..] == flight[1..] + [out] && longer[0] == flight[0];
      InFlightSnoc(flight[1..], out);
      InFlightStep(flight);
      InFlightStep(longer);
    }
  }

  lemma {:induction false} TilesConcat(fs: seq<Frames.Frame>, gs: seq<Frames.Frame>,
                                       start: nat, mid: nat, end: nat)
    requires Tiles(fs, start, mid) && Tiles(gs, mid, end)
    ensures Tiles(fs + gs, start, end)
  {
    if fs == [] {
      assert fs + gs == gs;
    } else {
      assert (fs + gs)[1..] == fs[1..] + gs;
      TilesConcat(fs[1..], gs, start + |fs[0].data|, mid, end);
    }
  }

  /** What waits at the application level: at most one STREAM frame, with all pending data. */
  lemma WaitingStream(c: Conn)
    ensures var fs := Waiting(c, APPDATA);
            var part := StreamPart(c, APPDATA);
            StreamFrames(fs) == part && StreamBytes(fs) == (if part == [] then [] else part[0].data)
  {
    var before := CryptoPart(c, APPDATA) + AckPart(c, APPDATA) + DonePart(c, APPDATA);
    NoStream(before);
    StreamBytesConcat(before, StreamPart(c, APPDATA));
    if Streaming(c, APPDATA) {
      assert StreamPart(c, APPDATA)[1..] == [];
    }
  }

  // ------------------------------------------------------------ one event

  /** The next number is in the window of a receiver that has all the numbers before it. */
  lemma NextInWindow(pn: nat)
    ensures PacketLaws.InWindow(if pn == 0 then 0 else pn - 1, pn, EncodedPnLen(pn))
  {
    PacketLaws.PowEven(EncodedPnLen(pn));
  }

  /** A genuine packet that is ingested with success gives `b` its frames and number. */
  lemma Delivered(l: Link)
    requires Joined(l.a, l.b) && Numbered(l.a, l.b, l.flight)
    requires l.flight != [] && Succeeds(l.b, l.flight[0])
    ensures var out := l.flight[0];
            Receive(l.b, out.packet).Ok?
            && Receive(l.b, out.packet).value.level == APPDATA
            && Receive(l.b, out.packet).value.pn == out.pn
            && exists k :: Receive(l.b, out.packet).value.frames == out.frames + FrameLaws.Pads(k)
  {
    hide SealPacket, HasSample, Ingest, Receive, SampleThere, ProtectionLaws.PadCount, Disciplined, Sturdy,
         PacketLaws.InWindow, FrameLaws.Pads, ProtectionLaws.ShortMask, Opens, AllGenuine;
    var out := l.flight[0];
    NumbersTail(l.a, l.flight, l.a.spaces.appdata.nextSendPn - |l.flight|);
    NextInWindow(out.pn);
    ShortReceived(l.b, l.a.spaces.appdata.keys.value.local, l.a.version, l.a.dstCid, l.a.srcCid,
                  out.frames, out.pn, EncodedPnLen(out.pn));
    NotRefused(l.b, out.packet);
  }

  /** A datagram that is ingested with success was received. */
  lemma NotRefused(b: Conn, buf: Data)
    requires buf != [] && SampleThere(b, buf) && Ingest(b, buf).1.Ok?
    ensures Receive(b, buf).Ok?
  {
    hide Receive, SampleThere, Arrived;
  }

  /** A delivery moves the oldest stream bytes from the network to the receive buffer. */
  lemma DeliverBalances(l: Link)
    requires Joined(l.a, l.b) && Numbered(l.a, l.b, l.flight) && Balanced(l)
    requires l.flight != [] && Succeeds(l.b, l.flight[0])
    ensures Balanced(Handed(l))
    ensures Handed(l).b.spaces.appdata.largestRecvPn
         == (var pn := l.flight[0].pn; Recorded(l.b.spaces.appdata, pn).largestRecvPn)
  {
    Delivered(l);
    hide Receive, SampleThere, Numbered, Joined, StreamBytes, FrameLaws.Pads, Arrived, Recorded;
    var out := l.flight[0];
    var arrival := Receive(l.b, out.packet).value;
    var k :| arrival.frames == out.frames + FrameLaws.Pads(k);
    PaddedArrival(l.b, out.pn, out.frames, k);
    MoveBytes(l.read, l.b.receivedAppData, StreamBytes(out.frames), InFlight(l.flight[1..]),
              l.a.pendingAppData);
  }

  /** What an application packet adds to its receiver, whatever padding follows its frames. */
  lemma PaddedArrival(b: Conn, pn: nat, frames: seq<Frames.Frame>, k: nat)
    requires Arrived(b, Arrival(APPDATA, pn, frames + FrameLaws.Pads(k))).1.Pass?
    ensures var d := Arrived(b, Arrival(APPDATA, pn, frames + FrameLaws.Pads(k))).0;
            && d.receivedAppData == b.receivedAppData + (StreamBytes(frames) + [])
            && d.spaces.appdata.largestRecvPn == Recorded(b.spaces.appdata, pn).largestRecvPn
  {
    hide ProcessFrames, StreamBytes, FrameLaws.Pads, Recorded;
    var b1 := b.(spaces := b.spaces.With(APPDATA, Recorded(b.spaces.At(APPDATA), pn)));
    ProcessFramesKeeps(b1, APPDATA, frames + FrameLaws.Pads(k));
    StreamBytesConcat(frames, FrameLaws.Pads(k));
    PadsNoStream(k);
    var d := ProcessFrames(b1, APPDATA, frames + FrameLaws.Pads(k)).0;
    assert d.spaces.At(APPDATA).largestRecvPn == b1.spaces.At(APPDATA).largestRecvPn;
  }

  lemma MoveBytes(read: Data, got: Data, first: Data, rest: Data, pending: Data)
    ensures read + (got + (first + [])) + rest + pending == read + got + (first + rest) + pending
  {
  }

  /** What stays in flight is still numbered after what `b` has. */
  lemma NumbersShift(a: Conn, b: Conn, b1: Conn, flight: seq<Departure>)
    requires Numbered(a, b, flight) && flight != [] && flight[0].Sent?
    requires b1.spaces.appdata.largestRecvPn
          == Recorded(b.spaces.appdata, flight[0].pn).largestRecvPn
    ensures Numbered(a, b1, flight[1..])
  {
    hide Genuine;
    GenuineSent(a, flight[0], a.spaces.appdata.nextSendPn - |flight|);
    NumbersTail(a, flight, a.spaces.appdata.nextSendPn - |flight|);
    hide AllGenuine;
  }

  lemma NumbersTail(a: Conn, flight: seq<Departure>, pn: nat)
    requires AllGenuine(a, flight, pn) && flight != []
    ensures Genuine(a, flight[0], pn) && AllGenuine(a, flight[1..], pn + 1)
  {
    hide Genuine;
  }

  lemma PadsNoStream(k: nat)
    ensures StreamBytes(FrameLaws.Pads(k)) == []
  {
    NoStream(FrameLaws.Pads(k));
  }

  lemma GenuineSent(a: Conn, out: Departure, pn: nat)
    requires Genuine(a, out, pn)
    ensures out.Sent? && out.pn == pn
  {
  }

  /** A packet takes all pending stream bytes, in one STREAM frame at the current offset. */
  lemma StreamTaken(c: Conn)
    requires c.state != State.Closed
    ensures var (d, out) := Depart(c);
            if out.Sent? && out.level == APPDATA
            then StreamBytes(out.frames) + d.pendingAppData == c.pendingAppData
                 && Tiles(StreamFrames(out.frames), c.streamSendOffset, d.streamSendOffset)
            else out.Lost? || (d.pendingAppData == c.pendingAppData
                               && d.streamSendOffset == c.streamSendOffset)
  {
    hide Depart, Waiting, StreamBytes, StreamFrames, Ready, Lifecycle.Progress, Tiles;
    Lifecycle.DepartKeeps(c);
    WaitingStream(c);
    PartTiles(c);
    var (d, out) := Depart(c);
    if out.Sent? && out.level == APPDATA {
      assert d == Taken(c, APPDATA);
      if Streaming(c, APPDATA) {
        assert StreamPart(c, APPDATA)[0].data == c.pendingAppData && d.pendingAppData == [];
        assert c.pendingAppData + [] == c.pendingAppData;
      } else {
        assert StreamPart(c, APPDATA) == [] && d.pendingAppData == c.pendingAppData;
        assert [] + c.pendingAppData == c.pendingAppData;
      }
    }
  }

  lemma PartTiles(c: Conn)
    ensures Tiles(StreamPart(c, APPDATA), c.streamSendOffset, Taken(c, APPDATA).streamSendOffset)
  {
    var part := StreamPart(c, APPDATA);
    if part != [] {
      assert part[1..] == [];
      assert part[0].offset == c.streamSendOffset && part[0].data == c.pendingAppData;
      assert Tiles(part[1..], c.streamSendOffset + |c.pendingAppData|, Taken(c, APPDATA).streamSendOffset);
    }
  }

  lemma EmitBalances(l: Link, start: nat)
    requires Balanced(l) && Tiles(l.framed, start, l.a.streamSendOffset)
    requires l.a.state != State.Closed && !Depart(l.a).1.Lost?
    ensures Balanced(Emitted(l)) && Tiles(Emitted(l).framed, start, Emitted(l).a.streamSendOffset)
  {
    StreamTaken(l.a);
    hide Depart, Tiles, StreamBytes, StreamFrames, InFlight;
    var (a, out) := Depart(l.a);
    if out.Sent? && out.level == APPDATA {
      InFlightSnoc(l.flight, out);
      TilesConcat(l.framed, StreamFrames(out.frames), start, l.a.streamSendOffset, a.streamSendOffset);
      TakeBytes(l.read, l.b.receivedAppData, InFlight(l.flight), StreamBytes(out.frames), a.pendingAppData);
    }
  }

  lemma TakeBytes(read: Data, got: Data, flying: Data, first: Data, pending: Data)
    ensures read + got + (flying + first) + pending == read + got + flying + (first + pending)
  {
  }

  /** A packet that `a` makes while it is established is genuine. */
  lemma EmitNumbers(l: Link)
    requires Joined(l.a, l.b) && Numbered(l.a, l.b, l.flight)
    requires l.a.state != State.Closed && !Depart(l.a).1.Lost?
    ensures var m := Emitted(l); Joined(m.a, m.b) && Numbered(m.a, m.b, m.flight)
  {
    DepartSteady(l.a);
    Lifecycle.DepartKeeps(l.a);
    EmitSealed(l.a);
    hide Depart, SealPacket, Waiting, Disciplined, Sturdy, Recorded, EncodedPnLen, AllGenuine,
         KeyChanges, Numbered, StreamFrames, Genuine, Ready, Opens;
    var (a, out) := Depart(l.a);
    assert a.spaces.At(APPDATA) == a.spaces.appdata && l.a.spaces.At(APPDATA) == l.a.spaces.appdata;
    if out.Sent? {
      WaitingSturdy(l.a, out.level);
    }
    if out.Sent? && out.level == APPDATA {
      SealedIsGenuine(a, out);
      NumbersSnoc(l.a, a, l.b, l.flight, out);
    } else {
      NumbersSame(l.a, a, l.b, l.flight);
    }
  }

  lemma NumbersSame(a: Conn, a1: Conn, b: Conn, flight: seq<Departure>)
    requires Numbered(a, b, flight) && SameSealer(a, a1)
    requires a1.spaces.appdata.nextSendPn == a.spaces.appdata.nextSendPn
    ensures Numbered(a1, b, flight)
  {
    hide Genuine, SameSealer;
    SameAll(a, a1, flight, a.spaces.appdata.nextSendPn - |flight|);
  }

  lemma NumbersSnoc(a: Conn, a1: Conn, b: Conn, flight: seq<Departure>, out: Departure)
    requires Numbered(a, b, flight) && SameSealer(a, a1)
    requires Genuine(a1, out, a.spaces.appdata.nextSendPn)
    requires a1.spaces.appdata.nextSendPn == a.spaces.appdata.nextSendPn + 1
    ensures Numbered(a1, b, flight + [out])
  {
    hide Genuine, SameSealer;
    SameAll(a, a1, flight, a.spaces.appdata.nextSendPn - |flight|);
    AllGenuineSnoc(a1, flight, out, a.spaces.appdata.nextSendPn - |flight|);
  }

  lemma {:induction false} AllGenuineSnoc(a: Conn, flight: seq<Departure>, out: Departure, pn: nat)
    requires AllGenuine(a, flight, pn) && Genuine(a, out, pn + |flight|)
    ensures AllGenuine(a, flight + [out], pn)
  {
    hide Genuine;
    if flight == [] {
      assert flight + [out] == [out] && [out][1..] == [];
    } else {
      assert (flight + [out])[1..] == flight[1..] + [out];
      AllGenuineSnoc(a, flight[1..], out, pn + 1);
    }
  }

  lemma SealedIsGenuine(a: Conn, out: Departure)
    requires out.Sent? && out.level == APPDATA && a.spaces.appdata.keys.Some? && Sturdy(out.frames)
    requires SealPacket(a.spaces.appdata.keys.value.local, APPDATA, a.version, a.dstCid, a.srcCid,
                        out.frames, out.pn, EncodedPnLen(out.pn), true) == Ok(out.packet)
    ensures Genuine(a, out, out.pn)
  {
  }

  lemma EmitSealed(c: Conn)
    requires c.state == Established
    ensures var out := Depart(c).1;
            out.Sent? ==>
              SealPacket(c.spaces.At(out.level).keys.value.local, out.level, c.version, c.dstCid,
                         c.srcCid, out.frames, out.pn, EncodedPnLen(out.pn), true) == Ok(out.packet)
  {
    hide SealPacket, Waiting;
  }

  /** What a packet's making depends on. */
  ghost predicate SameSealer(a: Conn, b: Conn)
  {
    b.spaces.appdata.keys == a.spaces.appdata.keys
    && b.version == a.version && b.dstCid == a.dstCid && b.srcCid == a.srcCid
  }

  /** Packets in flight stay genuine while `a` keeps its keys and its identity. */
  lemma {:induction false} SameAll(a: Conn, b: Conn, flight: seq<Departure>, pn: nat)
    requires SameSealer(a, b) && AllGenuine(a, flight, pn)
    ensures AllGenuine(b, flight, pn)
  {
    hide SealPacket, Sturdy;
    if flight != [] {
      SameAll(a, b, flight[1..], pn + 1);
    }
  }

  /** All of a receiver that deliveries depend on. */
  ghost predicate SameReceiver(b: Conn, d: Conn)
  {
    && Disciplined(d) && d.spaces.appdata.keys == b.spaces.appdata.keys
    && d.spaces.appdata.largestRecvPn == b.spaces.appdata.largestRecvPn
    && d.receivedAppData == b.receivedAppData && d.dstCid == b.dstCid
  }

  lemma ReceiverChanges(l: Link, d: Conn, start: nat)
    requires Invariant(l, start) && SameReceiver(l.b, d)
    ensures Invariant(l.(b := d), start)
  {
    hide Disciplined, AllGenuine, InFlight, Tiles, Opens;
  }

  /** All of a sender that its packets in flight depend on. */
  ghost predicate SameSource(a: Conn, d: Conn)
  {
    && Disciplined(d) && SameSealer(a, d) && (d.state == a.state || d.state == Established || d.state == State.Closed)
    && d.spaces.appdata.nextSendPn == a.spaces.appdata.nextSendPn
    && d.pendingAppData == a.pendingAppData && d.streamSendOffset == a.streamSendOffset
  }

  lemma SourceChanges(l: Link, d: Conn, start: nat)
    requires Invariant(l, start) && SameSource(l.a, d)
    ensures Invariant(l.(a := d), start)
  {
    hide Disciplined, AllGenuine, InFlight, Tiles, Opens;
    SameAll(l.a, d, l.flight, l.a.spaces.appdata.nextSendPn - |l.flight|);
  }

  lemma HearSame(a: Conn, buf: Data)
    requires Disciplined(a) && a.spaces.appdata.keys.Some? && SampleThere(a, buf)
    ensures SameSource(a, Ingest(a, buf).0)
  {
    var d := Ingest(a, buf).0;
    IngestSteady(a, buf);
    IngestKeeps(a, buf);
    SteadyApplication(a, d);
    hide Ingest, SampleThere, Disciplined, Steady;
    assert d.spaces.At(APPDATA) == d.spaces.appdata && a.spaces.At(APPDATA) == a.spaces.appdata;
  }

  lemma RecvSame(c: Conn, cap: nat)
    requires Disciplined(c)
    ensures SameSource(c, RecvData(c, cap).0)
  {
    Lifecycle.RecvKeeps(c, cap);
    hide RecvData, KeyChanges;
  }

  /** What `b` sends leaves its receiving side alone. */
  lemma PeerSame(b: Conn, step: Step)
    requires Disciplined(b) && b.spaces.appdata.keys.Some? && (step.DoSend? || step.DoEgest?)
    ensures SameReceiver(b, Next(b, step))
  {
    StepSteady(b, step);
    SteadyApplication(b, Next(b, step));
    if step.DoEgest? && b.state != State.Closed {
      Lifecycle.EgestState(b, step.cap);
      Lifecycle.DepartKeeps(b);
    }
    hide Depart, Waiting, Disciplined, Steady, Ready, Lifecycle.Progress, Streaming, Finishing;
    assert Depart(b).0.spaces.At(APPDATA) == Depart(b).0.spaces.appdata;
  }

  /** Datagrams of the other spaces do not touch the stream or the application's numbers. */
  lemma AsideSame(b: Conn, buf: Data)
    requires Disciplined(b) && b.spaces.appdata.keys.Some?
    requires buf != [] && SampleThere(b, buf) && NoStreamIn(b, buf)
    ensures SameReceiver(b, Ingest(b, buf).0)
  {
    IngestSteady(b, buf);
    SteadyApplication(b, Ingest(b, buf).0);
    hide ProcessFrames, Receive, SampleThere, StreamBytes, Recorded, Disciplined, Steady;
    if b.state != State.Closed && Receive(b, buf).Ok? {
      var a := Receive(b, buf).value;
      var b1 := b.(spaces := b.spaces.With(a.level, Recorded(b.spaces.At(a.level), a.pn)));
      ProcessFramesKeeps(b1, a.level, a.frames);
      var d := ProcessFrames(b1, a.level, a.frames).0;
      assert d.spaces.At(APPDATA).largestRecvPn == b1.spaces.At(APPDATA).largestRecvPn;
    }
  }

  lemma ReadKeeps(l: Link, cap: nat, start: nat)
    requires Invariant(l, start)
    ensures Invariant(ReadAt(l, cap), start)
  {
    hide AllGenuine, InFlight, Tiles, KeyChanges, Opens;
    var (b, data) := RecvData(l.b, cap);
    assert l.read + (data + b.receivedAppData) == l.read + data + b.receivedAppData;
    assert data + b.receivedAppData == l.b.receivedAppData;
  }

  lemma SendKeeps(l: Link, data: Data, start: nat)
    requires Invariant(l, start)
    ensures Invariant(Queued(l, data), start)
  {
    hide Genuine, InFlight, KeyChanges, Tiles, Opens;
    SameAll(l.a, SendData(l.a, data), l.flight, l.a.spaces.appdata.nextSendPn - |l.flight|);
    assert l.read + l.b.receivedAppData + InFlight(l.flight) + (l.a.pendingAppData + data)
           == l.read + l.b.receivedAppData + InFlight(l.flight) + l.a.pendingAppData + data;
  }

  lemma HandKeeps(l: Link, start: nat)
    requires Invariant(l, start) && l.flight != [] && Succeeds(l.b, l.flight[0])
    ensures Invariant(Handed(l), start)
  {
    var b := Handed(l).b;
    DeliverBalances(l);
    IngestSteady(l.b, l.flight[0].packet);
    IngestKeeps(l.b, l.flight[0].packet);
    SteadyApplication(l.b, b);
    hide Ingest, SampleThere, Disciplined, Numbered, Balanced, Steady;
    NumbersShift(l.a, l.b, b, l.flight);
  }

  lemma EmitKeeps(l: Link, start: nat)
    requires Invariant(l, start) && l.a.state != State.Closed && !Depart(l.a).1.Lost?
    ensures Invariant(Emitted(l), start)
  {
    hide Joined, Numbered, Balanced, Tiles, Depart, Emitted;
    EmitBalances(l, start);
    EmitNumbers(l);
  }

  lemma EventKeeps(l: Link, e: Event, start: nat)
    requires Invariant(l, start) && Possible(l, e)
    ensures Invariant(Happen(l, e), start)
  {
    BothDisciplined(l, start);
    hide Invariant, Disciplined, Depart, Ingest, RecvData, Next, Queued, Handed, ReadAt, Emitted,
         SampleThere, NoStreamIn, Succeeds, SameSource, SameReceiver;
    match e
    case Send(data) => SendKeeps(l, data, start);
    case Emit(cap) => EmitKeeps(l, start);
    case Deliver => HandKeeps(l, start);
    case Read(cap) => ReadKeeps(l, cap, start);
    case Hear(buf) =>
      HearSame(l.a, buf);
      SourceChanges(l, Ingest(l.a, buf).0, start);
    case ReadBack(cap) =>
      RecvSame(l.a, cap);
      SourceChanges(l, RecvData(l.a, cap).0, start);
    case Peer(step) =>
      PeerSame(l.b, step);
      ReceiverChanges(l, Next(l.b, step), start);
    case Aside(buf) =>
      AsideSame(l.b, buf);
      ReceiverChanges(l, Ingest(l.b, buf).0, start);
  }

  lemma BothDisciplined(l: Link, start: nat)
    requires Invariant(l, start)
    ensures Disciplined(l.a) && Disciplined(l.b)
    ensures l.a.spaces.appdata.keys.Some? && l.b.spaces.appdata.keys.Some?
  {
    hide Disciplined;
  }

  // ------------------------------------------------------------ whole runs

  /** All events of a run are possible when they happen. */
  predicate AllPossible(l: Link, es: seq<Event>)
    decreases |es|
  {
    es == [] || (Possible(l, es[0]) && AllPossible(Happen(l, es[0]), es[1..]))
  }

  function After(l: Link, es: seq<Event>): Link
    requires AllPossible(l, es)
    decreases |es|
  {
    if es == [] then l else After(Happen(l, es[0]), es[1..])
  }

  /** End-to-end conservation: from any joined pair with nothing in flight, after any run, the
      bytes read, buffered, in flight and pending are in this order exactly the bytes sent, and
      the STREAM frames tile the stream. */
  lemma {:induction false} StreamConserved(l: Link, es: seq<Event>, start: nat)
    requires Invariant(l, start) && AllPossible(l, es)
    ensures Balanced(After(l, es))
    ensures Tiles(After(l, es).framed, start, After(l, es).a.streamSendOffset)
    ensures Invariant(After(l, es), start)
    decreases |es|
  {
    hide Possible, Happen, Joined, Numbered, Tiles, Balanced;
    if es != [] {
      EventKeeps(l, es[0], start);
      StreamConserved(Happen(l, es[0]), es[1..], start);
    }
  }

  /** Where such runs start: two joined endpoints of which the receiver has every number the
      sender used. What was queued or received before counts as sent. */
  lemma LinkStarts(a: Conn, b: Conn)
    requires Joined(a, b) && Expected(b, a.spaces.appdata.nextSendPn, 0)
    ensures Invariant(Start(a, b), a.streamSendOffset)
  {
    hide Joined;
    assert [] + b.receivedAppData + [] + a.pendingAppData == b.receivedAppData + a.pendingAppData;
  }

  function Start(a: Conn, b: Conn): Link
  {
    Link(a, b, [], b.receivedAppData + a.pendingAppData, [], [])
  }

  /** What the application queues at `a` in a run. */
  function SentBy(es: seq<Event>): Data
  {
    if es == [] then [] else (if es[0].Send? then es[0].data else []) + SentBy(es[1..])
  }

  lemma {:induction false} SentGrows(l: Link, es: seq<Event>)
    requires AllPossible(l, es)
    ensures After(l, es).sent == l.sent + SentBy(es)
    decreases |es|
  {
    if es == [] {
      assert l.sent + [] == l.sent;
    } else {
      HappenSends(l, es[0]);
      hide Happen, Possible;
      SentGrows(Happen(l, es[0]), es[1..]);
      var first := if es[0].Send? then es[0].data else [];
      assert l.sent + first + SentBy(es[1..]) == l.sent + (first + SentBy(es[1..]));
    }
  }

  lemma HappenSends(l: Link, e: Event)
    requires Possible(l, e)
    ensures Happen(l, e).sent == l.sent + (if e.Send? then e.data else [])
  {
    hide Depart, Ingest, RecvData, Next, SampleThere, NoStreamIn, Succeeds, StreamFrames;
    assert l.sent + [] == l.sent;
  }

  /** A TLS that hands out keys with its first two outputs. */
  function TwiceKeyed(keys: Keys): Oracle
  {
    Oracle((h, d) => true, h => ([], if |h| < 2 then Some(OneRttKeys(keys)) else None))
  }

  lemma {:induction false} ChangesAreEvents(s: Session)
    ensures KeyChanges(s) <= |s.history|
    decreases |s.history|
  {
    if s.history != [] {
      ChangesAreEvents(s.(history := s.history[..|s.history| - 1]));
    }
  }

  lemma TwiceKeyedIsDisciplined(keys: Keys)
    ensures HandsOutTwice(TwiceKeyed(keys))
    ensures KeyChanges(Session(TwiceKeyed(keys), [Write(INITIAL), Write(HANDSHAKE)])) == 2
  {
    var o := TwiceKeyed(keys);
    forall h: History | o.output(h).1.Some? ensures KeyChanges(Session(o, h)) < 2 {
      ChangesAreEvents(Session(o, h));
    }
    var h := [Write(INITIAL), Write(HANDSHAKE)];
    assert h[..1] == [Write(INITIAL)] && h[..1][..0] == [];
    assert KeyChanges(Session(o, [])) == 0;
    assert KeyChanges(Session(o, h[..1])) == 1;
  }

  /** An established connection with the given 1-RTT keys, before any application packet. */
  function Settled(side: Side, keys: Keys, dst: Data, src: Data): Conn
  {
    var tls := Session(TwiceKeyed(keys), [Write(INITIAL), Write(HANDSHAKE)]);
    var c := Fresh(side, Established, tls, VERSION_1, dst, src);
    c.(spaces := c.spaces.(appdata := NEW_SPACE.(keys := Some(keys))))
  }

  /** Any two matching key pairs have joined connections: the conservation law has a start. */
  lemma JoinedExists(k: Keys, l: Keys, dst: Data, src: Data)
    requires Opens(k.local, l.remote) && |dst| == |src| <= MAX_CID_LEN
    ensures var a, b := Settled(Client, k, dst, src), Settled(Server, l, src, dst);
            Joined(a, b) && Invariant(Start(a, b), 0)
  {
    TwiceKeyedIsDisciplined(k);
    TwiceKeyedIsDisciplined(l);
    hide KeyChanges, Opens;
    var a, b := Settled(Client, k, dst, src), Settled(Server, l, src, dst);
    LinkStarts(a, b);
  }
}
