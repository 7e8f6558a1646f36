/** `egest` and the loop of `runtime.rs` that drains it, with buffers of a given size. */
module Egress {
  import opened Wrappers
  import opened Bytes
  import opened Protection
  import opened Connections
  import Lifecycle
  import Frames
  import FrameLaws
  import Packets
  import ProtectionLaws
  import VarInt

  lemma PacketsAreNotEmpty(c: Conn)
    ensures Depart(c).1.Sent? ==> Depart(c).1.packet != []
  {
    hide Packets.LongFirst, Packets.LongMiddle, BigEndian, Xor, MaskPn, FirstMask, PaddedPayload,
         Waiting, AllWritable;
  }

  /** What one call returns is a whole packet; it is empty exactly when there was nothing to send
      or the packet did not fit. */
  lemma EgestReturns(c: Conn, cap: nat)
    requires c.state != State.Closed
    ensures var (d, r) := Egest(c, cap);
            var out := Depart(c).1;
            && d == Depart(c).0
            && (r.Err? <==> out.Lost?)
            && (r.Ok? ==> (r.value == [] <==> out.Idle? || |out.packet| > cap)
                          && (r.value != [] ==> r.value == out.packet && |r.value| <= cap))
  {
    PacketsAreNotEmpty(c);
    hide Depart;
  }

  /** A packet that does not fit is gone with everything in it: its CRYPTO bytes, its ACK and its
      stream bytes are no longer pending, and the stream offset has moved past them. */
  lemma TooSmallLoses(c: Conn, cap: nat)
    requires c.state != State.Closed && Depart(c).1.Sent? && |Depart(c).1.packet| > cap
    ensures var (d, r) := Egest(c, cap);
            var level := Depart(c).1.level;
            && r == Ok([]) && Waiting(c, level) != []
            && d.pendingCrypto.At(level) == [] && d.spaces.At(level).pendingAcks == []
            && (Streaming(c, level) ==>
                  (d.pendingAppData == []
                   && d.streamSendOffset == c.streamSendOffset + |c.pendingAppData|))
  {
    Lifecycle.DepartKeeps(c);
    hide Depart, Waiting;
  }

  // ------------------------------------------------------------ the drain loop

  /** The work left in a connection that may be closed. */
  function Left(c: Conn): nat
  {
    if c.state == State.Closed then 0 else Lifecycle.Work(c)
  }

  lemma EachCallLess(c: Conn, cap: nat)
    requires Egest(c, cap).1.Ok? && Egest(c, cap).1.value != []
    ensures Left(Egest(c, cap).0) == Left(c) - 1
  {
    EgestReturns(c, cap);
    Lifecycle.OnePacketLess(c);
    hide Depart, Lifecycle.Work, Egest;
  }

  /** `flush_egress`: calls `egest` until it returns nothing or fails. */
  function Flush(c: Conn, cap: nat): (Conn, seq<Data>, Outcome<ConnectionError>)
    decreases Left(c)
  {
    var (d, r) := Egest(c, cap);
    if r.Err? then (d, [], Fail(r.error))
    else if r.value == [] then (d, [], Pass)
    else
      EachCallLess(c, cap);
      var (e, rest, o) := Flush(d, cap);
      (e, [r.value] + rest, o)
  }

  /** One turn of the loop. */
  lemma FlushStep(c: Conn, cap: nat)
    ensures var (d, r) := Egest(c, cap);
            Flush(c, cap)
            == if r.Err? then (d, [], Fail(r.error))
               else if r.value == [] then (d, [], Pass)
               else var (e, rest, o) := Flush(d, cap); (e, [r.value] + rest, o)
  {
    hide Egest;
  }

  /** Every packet was sealed and fits. */
  predicate AllFit(out: seq<Departure>, cap: nat)
  {
    forall d :: d in out ==> d.Sent? && |d.packet| <= cap
  }

  function PacketsOf(out: seq<Departure>): seq<Data>
  {
    if out == [] then []
    else (if out[0].Sent? then [out[0].packet] else []) + PacketsOf(out[1..])
  }

  /** The loop ends after at most four packets. It sends everything, and leaves nothing to send
      in any space with keys, exactly when every packet is sealed and fits the buffer. */
  lemma {:induction false} FlushDrains(c: Conn, cap: nat)
    requires c.state != State.Closed
    ensures var (d, packets, o) := Flush(c, cap);
            && |packets| <= Left(c) <= 4
            && (|packets| == Left(c) && o == Pass <==> AllFit(Lifecycle.Drain(c).1, cap))
            && (AllFit(Lifecycle.Drain(c).1, cap) ==>
                  d == Lifecycle.Drain(c).0 && Lifecycle.Drained(d)
                  && packets == PacketsOf(Lifecycle.Drain(c).1))
    decreases Left(c)
  {
    EgestReturns(c, cap);
    Lifecycle.OnePacketLess(c);
    Lifecycle.DrainTerminates(c);
    hide Depart, Lifecycle.Work, Egest, Lifecycle.Drained;
    var (d, r) := Egest(c, cap);
    var out := Depart(c).1;
    if out.Idle? {
      assert Lifecycle.Drain(c).1 == [];
    } else {
      var rest := Lifecycle.Drain(d).1;
      assert Lifecycle.Drain(c).1 == [out] + rest && ([out] + rest)[1..] == rest;
      assert AllFit([out] + rest, cap) <==> out.Sent? && |out.packet| <= cap && AllFit(rest, cap) by {
        AllFitCons(out, rest, cap);
      }
      if r.Ok? && r.value != [] {
        FlushDrains(d, cap);
      }
    }
  }

  lemma AllFitCons(out: Departure, rest: seq<Departure>, cap: nat)
    ensures AllFit([out] + rest, cap) <==> out.Sent? && |out.packet| <= cap && AllFit(rest, cap)
  {
    assert out in [out] + rest;
    assert forall d :: d in rest ==> d in [out] + rest;
  }

  // ------------------------------------------------------------ sizes as numbers

  /** The bytes of the frames that wait at a level. */
  function WaitingSize(c: Conn, level: Level): nat
  {
    var crypto, acks := |c.pendingCrypto.At(level)|, c.spaces.At(level).pendingAcks;
    (if crypto == 0 then 0 else 2 + VarInt.EncodedLen(crypto) + crypto)
    + (if acks == [] then 0 else 3 + VarInt.EncodedLen(Max(acks)) + VarInt.EncodedLen(|acks| - 1))
    + (if Finishing(c, level) then 1 else 0)
    + (if Streaming(c, level)
       then 2 + (if c.streamSendOffset > 0 then VarInt.EncodedLen(c.streamSendOffset) else 0)
            + VarInt.EncodedLen(|c.pendingAppData|) + |c.pendingAppData|
       else 0)
  }

  /** Every integer in those frames has a varint. */
  predicate Encodable(c: Conn, level: Level)
  {
    var acks := c.spaces.At(level).pendingAcks;
    && Frames.Fits(|c.pendingCrypto.At(level)|)
    && (acks != [] ==> Frames.Fits(Max(acks)) && Frames.Fits(|acks| - 1))
    && (Streaming(c, level) ==> Frames.Fits(c.streamSendOffset) && Frames.Fits(|c.pendingAppData|))
  }

  lemma {:induction false} ListConcat(fs: seq<Frames.Frame>, gs: seq<Frames.Frame>)
    ensures |Frames.ListWire(fs + gs, [])| == |Frames.ListWire(fs, [])| + |Frames.ListWire(gs, [])|
  {
    hide Frames.WireTo;
    if fs == [] {
      assert fs + gs == gs;
    } else {
      assert (fs + gs)[1..] == fs[1..] + gs;
      ListConcat(fs[1..], gs);
      FrameLaws.WireTail(fs[0], Frames.ListWire(fs[1..] + gs, []));
      FrameLaws.WireTail(fs[0], Frames.ListWire(fs[1..], []));
    }
  }

  lemma OneFrame(f: Frames.Frame)
    ensures |Frames.ListWire([f], [])| == |Frames.Wire(f)| && |Frames.ListWire([], [])| == 0
  {
    hide Frames.WireTo;
    assert [f][1..] == [];
  }

  lemma CryptoSize(data: Data)
    requires Frames.Fits(|data|)
    ensures |Frames.Wire(Frames.Crypto(0, data))| == 2 + VarInt.EncodedLen(|data|) + |data|
  {
    hide VarInt.Encoding;
  }

  lemma AckSize(acks: seq<nat>)
    requires acks != [] && Frames.Fits(Max(acks)) && Frames.Fits(|acks| - 1)
    ensures |Frames.Wire(AckFor(acks))|
         == 3 + VarInt.EncodedLen(Max(acks)) + VarInt.EncodedLen(|acks| - 1)
  {
    hide VarInt.Encoding, Max, VarInt.EncodedLen;
    ZeroSize();
    var f := AckFor(acks);
    assert f.ranges[1..] == [];
  }

  lemma ZeroSize()
    ensures VarInt.EncodedLen(0) == 1
  {
  }

  lemma StreamSize(offset: nat, data: Data)
    requires Frames.Fits(offset) && Frames.Fits(|data|) && data != []
    ensures |Frames.Wire(Frames.Stream(0, offset, data, false))|
         == 2 + (if offset > 0 then VarInt.EncodedLen(offset) else 0) + VarInt.EncodedLen(|data|) + |data|
  {
    hide VarInt.Encoding;
  }

  /** The frames that wait are as long as their numbers say. */
  lemma WaitingSizeIs(c: Conn, level: Level)
    requires Encodable(c, level)
    ensures |Frames.ListWire(Waiting(c, level), [])| == WaitingSize(c, level)
  {
    hide Frames.ListWire, Frames.WireTo, Max, AckFor, VarInt.EncodedLen, Per.At;
    var crypto, acks := CryptoPart(c, level), AckPart(c, level);
    var done, stream := DonePart(c, level), StreamPart(c, level);
    ListConcat(crypto, acks);
    ListConcat(crypto + acks, done);
    ListConcat(crypto + acks + done, stream);
    OneFrame(Frames.HandshakeDone);
    if crypto != [] {
      OneFrame(crypto[0]);
      CryptoSize(c.pendingCrypto.At(level));
    }
    if acks != [] {
      OneFrame(acks[0]);
      AckSize(c.spaces.At(level).pendingAcks);
    }
    if done != [] {
      DoneSize();
    }
    if stream != [] {
      OneFrame(stream[0]);
      StreamSize(c.streamSendOffset, c.pendingAppData);
    }
  }

  lemma DoneSize()
    ensures |Frames.Wire(Frames.HandshakeDone)| == 1
  {
  }

  lemma WritableConcat(fs: seq<Frames.Frame>, gs: seq<Frames.Frame>)
    ensures AllWritable(fs + gs) <==> AllWritable(fs) && AllWritable(gs)
  {
    hide Frames.Writable;
    assert forall f :: f in fs || f in gs ==> f in fs + gs;
  }

  lemma PartsWritable(c: Conn, level: Level)
    ensures AllWritable(CryptoPart(c, level)) <==> Frames.Fits(|c.pendingCrypto.At(level)|)
    ensures var acks := c.spaces.At(level).pendingAcks;
            AllWritable(AckPart(c, level))
            <==> (acks != [] ==> Frames.Fits(Max(acks)) && Frames.Fits(|acks| - 1))
    ensures AllWritable(DonePart(c, level))
    ensures AllWritable(StreamPart(c, level))
            <==> (Streaming(c, level) ==> Frames.Fits(c.streamSendOffset) && Frames.Fits(|c.pendingAppData|))
  {
    hide Max, Per.At;
    if CryptoPart(c, level) != [] {
      assert CryptoPart(c, level)[0] in CryptoPart(c, level);
    }
    if AckPart(c, level) != [] {
      assert AckPart(c, level)[0] in AckPart(c, level);
    }
    if StreamPart(c, level) != [] {
      assert StreamPart(c, level)[0] in StreamPart(c, level);
    }
  }

  lemma EncodableIs(c: Conn, level: Level)
    ensures AllWritable(Waiting(c, level)) <==> Encodable(c, level)
  {
    hide AllWritable, CryptoPart, AckPart, DonePart, StreamPart, Max, Per.At;
    PartsWritable(c, level);
    WritableConcat(CryptoPart(c, level), AckPart(c, level));
    WritableConcat(CryptoPart(c, level) + AckPart(c, level), DonePart(c, level));
    WritableConcat(CryptoPart(c, level) + AckPart(c, level) + DonePart(c, level), StreamPart(c, level));
  }

  predicate Long(c: Conn, level: Level)
  {
    level != APPDATA || c.state != Established
  }

  function PnLen(c: Conn, level: Level): nat
  {
    EncodedPnLen(c.spaces.At(level).nextSendPn)
  }

  /** The size of the next packet at a level. */
  function NextSize(c: Conn, level: Level): nat
  {
    ProtectionLaws.SizeOf(level, Long(c, level), |c.dstCid|, |c.srcCid|, WaitingSize(c, level),
                          PnLen(c, level))
  }

  /** The packet can be encoded: its frames' integers, and its Length if it has one. */
  predicate Sendable(c: Conn, level: Level)
  {
    && Encodable(c, level)
    && (Long(c, level) ==>
          Frames.Fits(PnLen(c, level) + 16
                      + ProtectionLaws.PayloadSize(level, |c.dstCid|, |c.srcCid|,
                                                   WaitingSize(c, level), PnLen(c, level))))
  }

  /** A cipher with 16-byte tags and samples that seals whatever it is given. */
  ghost predicate Willing(keys: DirectionalKeys)
  {
    ProtectionLaws.Sized(keys) && forall pn, aad, text :: keys.seal(pn, aad, text).Some?
  }

  ghost predicate AllWilling(c: Conn)
  {
    forall l: Level :: c.spaces.At(l).keys.Some? ==> Willing(c.spaces.At(l).keys.value.local)
  }

  /** Whether the next packet at a level is sealed, and its size, as conditions on numbers. */
  lemma NextPacket(c: Conn, level: Level)
    requires c.spaces.At(level).keys.Some? && Willing(c.spaces.At(level).keys.value.local)
    ensures Sealing(c, level).Ok? <==> Sendable(c, level)
    ensures Sealing(c, level).Ok? ==> |Sealing(c, level).value| == NextSize(c, level)
  {
    hide SealPacket, Waiting, WaitingSize, Encodable, ProtectionLaws.SizeOf, ProtectionLaws.PayloadSize,
         Packets.LongMiddle, Packets.LongFirst, PaddedPayload, Frames.ListWire, AllWritable,
         ShortFirstByte, BigEndian;
    var keys := c.spaces.At(level).keys.value.local;
    var fs, pn, n := Waiting(c, level), c.spaces.At(level).nextSendPn, PnLen(c, level);
    EncodableIs(c, level);
    if Encodable(c, level) {
      WaitingSizeIs(c, level);
      ProtectionLaws.SealsUnlessRefused(keys, level, c.version, c.dstCid, c.srcCid, fs, pn, n,
                                        c.state == Established);
      ProtectionLaws.PayloadSizeIs(keys, level, c.dstCid, c.srcCid, Frames.ListWire(fs, []), n);
      if Sealing(c, level).Ok? {
        ProtectionLaws.PacketSize(keys, level, c.version, c.dstCid, c.srcCid, fs, pn, n,
                                  c.state == Established);
      }
    } else {
      NotWritten(keys, level, c.version, c.dstCid, c.srcCid, fs, pn, n, c.state == Established);
    }
  }

  lemma NotWritten(keys: DirectionalKeys, level: Level, version: Packets.U32, dst: Data, src: Data,
                   fs: seq<Frames.Frame>, pn: nat, pnLen: nat, established: bool)
    requires !AllWritable(fs) && 1 <= pnLen <= 4
    ensures SealPacket(keys, level, version, dst, src, fs, pn, pnLen, established).Err?
  {
  }

  /** The space the next packet comes from. */
  function NextLevel(c: Conn): Option<Level>
  {
    if Ready(c, INITIAL) then Some(INITIAL)
    else if Ready(c, HANDSHAKE) then Some(HANDSHAKE)
    else if Ready(c, APPDATA) then Some(APPDATA)
    else None
  }

  /** Every packet to come can be encoded and is no longer than the buffer. */
  predicate SizesFit(c: Conn, cap: nat)
    requires c.state != State.Closed
    decreases Lifecycle.Work(c)
  {
    NextTaken(c);
    match NextLevel(c)
    case None => true
    case Some(level) =>
      Sendable(c, level) && NextSize(c, level) <= cap && SizesFit(Taken(c, level), cap)
  }

  lemma NextTaken(c: Conn)
    requires c.state != State.Closed
    ensures NextLevel(c).Some? ==>
              var level := NextLevel(c).value;
              && Taken(c, level).state != State.Closed
              && Lifecycle.Work(Taken(c, level)) < Lifecycle.Work(c)
  {
    Lifecycle.OnePacketLess(c);
    hide Waiting, Sealing, Lifecycle.Work;
  }

  /** With ciphers that seal what they are given, the drain's packets are all sealed and fit
      exactly when their sizes, computed beforehand, do. */
  lemma {:induction false} FitsBySize(c: Conn, cap: nat)
    requires c.state != State.Closed && AllWilling(c)
    ensures AllFit(Lifecycle.Drain(c).1, cap) <==> SizesFit(c, cap)
    decreases Lifecycle.Work(c)
  {
    hide Waiting, Sealing, Lifecycle.Work, Willing, Sendable, NextSize, Taken, Ready, AllFit;
    NextTaken(c);
    DrainStep(c);
    match NextLevel(c)
    case None => assert AllFit([], cap) by { AllFitNothing(cap); }
    case Some(level) =>
      NextPacket(c, level);
      TakenWilling(c, level);
      FitsBySize(Taken(c, level), cap);
      AllFitCons(Depart(c).1, Lifecycle.Drain(Taken(c, level)).1, cap);
  }

  lemma AllFitNothing(cap: nat)
    ensures AllFit([], cap)
  {
  }

  lemma DrainStep(c: Conn)
    requires c.state != State.Closed
    ensures NextLevel(c).None? ==> Lifecycle.Drain(c).1 == []
    ensures NextLevel(c).Some? ==>
              var level := NextLevel(c).value;
              && c.spaces.At(level).keys.Some? && Taken(c, level).state != State.Closed
              && Depart(c) == DepartAt(c, level)
              && Lifecycle.Drain(c).1 == [Depart(c).1] + Lifecycle.Drain(Taken(c, level)).1
  {
    NextTaken(c);
    hide Waiting, Sealing, Lifecycle.Work;
  }

  lemma TakenWilling(c: Conn, level: Level)
    requires AllWilling(c)
    ensures AllWilling(Taken(c, level))
  {
    hide Willing;
  }

  /** So the drain loop sends all the work, and leaves nothing to send, exactly when the sizes of
      its packets, as numbers, are no larger than the buffer. */
  lemma FlushDrainsBySize(c: Conn, cap: nat)
    requires c.state != State.Closed && AllWilling(c)
    ensures var (d, packets, o) := Flush(c, cap);
            && (|packets| == Left(c) && o == Pass <==> SizesFit(c, cap))
            && (SizesFit(c, cap) ==> Lifecycle.Drained(d))
  {
    hide Lifecycle.Drained, Flush, SizesFit, AllFit, AllWilling;
    FlushDrains(c, cap);
    FitsBySize(c, cap);
  }
}
