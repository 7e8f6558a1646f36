/** What one connection seals, its peer receives: `egest` and `ingest` back to back. */
module Delivery {
  import opened Wrappers
  import opened Bytes
  import opened Packets
  import opened Protection
  import opened Connections
  import Frames
  import FrameLaws
  import PacketLaws
  import ProtectionLaws

  /** The frames survive whatever padding follows them. */
  ghost predicate Sturdy(fs: seq<Frames.Frame>)
  {
    forall k: nat :: FrameLaws.ListRecoverable(fs, Zeros(k))
  }

  /** Frames that are recoverable wherever they stand make lists that survive padding. */
  lemma {:induction false} SturdyList(fs: seq<Frames.Frame>, t: Data)
    requires forall f :: f in fs ==> Frames.Recoverable(f, [0])
    ensures FrameLaws.ListRecoverable(fs, t)
  {
    hide Frames.ListWire;
    if fs != [] {
      assert fs[0] in fs;
      SturdyList(fs[1..], t);
    }
  }

  /** Every list that `egest` builds survives padding. */
  lemma WaitingSturdy(c: Conn, level: Level)
    ensures Sturdy(Waiting(c, level))
  {
    var fs := Waiting(c, level);
    forall f | f in fs ensures Frames.Recoverable(f, [0]) {
      assert f in CryptoPart(c, level) || f in AckPart(c, level) || f in DonePart(c, level)
             || f in StreamPart(c, level);
    }
    forall k: nat ensures FrameLaws.ListRecoverable(fs, Zeros(k)) {
      SturdyList(fs, Zeros(k));
    }
  }

  /** Every list that `egest` builds is written and read back, with the padding behind it, as
      long as its integers fit a varint. */
  lemma WaitingRoundTrip(c: Conn, level: Level, k: nat)
    requires AllWritable(Waiting(c, level))
    ensures Frames.FramesOf(Frames.ListWire(Waiting(c, level), Zeros(k)))
         == Ok(Waiting(c, level) + FrameLaws.Pads(k))
  {
    WaitingSturdy(c, level);
    hide Waiting, FrameLaws.ListRecoverable, Frames.ListWire, Frames.FramesOf;
    FrameLaws.ListRoundTrip(Waiting(c, level), k);
  }

  /** A short packet reaches its receiver exactly when its mask lets the header check pass: the
      two reserved bits stay clear and the length bits do not turn to zero. */
  lemma ShortReceived(b: Conn, s: DirectionalKeys, version: U32, dst: Data, src: Data,
                      frames: seq<Frames.Frame>, pn: nat, pnLen: nat)
    requires b.spaces.appdata.keys.Some? && Opens(s, b.spaces.appdata.keys.value.remote)
    requires |dst| == |b.dstCid| <= MAX_CID_LEN && 1 <= pnLen <= 4
    requires PacketLaws.InWindow(b.spaces.appdata.largestRecvPn, pn, pnLen)
    requires SealPacket(s, APPDATA, version, dst, src, frames, pn, pnLen, true).Ok? && Sturdy(frames)
    ensures var packet := SealPacket(s, APPDATA, version, dst, src, frames, pn, pnLen, true).value;
            && packet != [] && SampleThere(b, packet) && HasSample(s, packet, 1 + |dst|)
            && var m := ProtectionLaws.ShortMask(s, packet, dst)[0];
            Receive(b, packet)
            == if m / 8 % 4 == 0 && m % 4 != pnLen % 4
               then Ok(Arrival(APPDATA, pn, frames + FrameLaws.Pads(
                         ProtectionLaws.PadCount(s, APPDATA, dst, src, frames, pnLen))))
               else Err(BadPacket)
  {
    hide SealShort, Open, HasSample, ShortHeaderAt, PaddedPayload, AllWritable, Frames.ListWire,
         ProtectionLaws.PadCount, FrameLaws.ListRecoverable, ProtectionLaws.ShortMask,
         PacketLaws.InWindow, FrameLaws.Pads;
    var payload := PaddedPayload(s, APPDATA, dst, src, Frames.ListWire(frames, []), pnLen);
    ProtectionLaws.ShortAcceptance(s, dst, payload, pn, pnLen);
    ProtectionLaws.ShortRoundTrip(s, b.spaces.appdata.keys.value.remote, version, dst, src, frames,
                                  pn, pnLen, b.spaces.appdata.largestRecvPn);
  }

  /** A long packet reaches its receiver, in the space it was made for, with its number and
      frames, for any mask and any connection state. */
  lemma LongReceived(b: Conn, s: DirectionalKeys, level: Level, version: U32, dst: Data, src: Data,
                     frames: seq<Frames.Frame>, pn: nat, pnLen: nat, established: bool)
    requires b.spaces.At(level).keys.Some? && Opens(s, b.spaces.At(level).keys.value.remote)
    requires version != 0 && |dst| <= MAX_CID_LEN && |src| <= MAX_CID_LEN
    requires 1 <= pnLen <= 4 && pn < Pow256(pnLen) && (level != APPDATA || !established)
    requires SealPacket(s, level, version, dst, src, frames, pn, pnLen, established).Ok? && Sturdy(frames)
    ensures var packet := SealPacket(s, level, version, dst, src, frames, pn, pnLen, established).value;
            && packet != [] && SampleThere(b, packet)
            && Receive(b, packet)
               == Ok(Arrival(level, pn, frames + FrameLaws.Pads(
                       ProtectionLaws.PadCount(s, level, dst, src, frames, pnLen))))
  {
    hide SealPacket, Open, OpenLong, HasSample, LongHeaderAt, PnOffsetLong, ProtectionLaws.PadCount,
         FrameLaws.ListRecoverable, FrameLaws.Pads, Pow256;
    ProtectionLaws.LongRoundTrip(s, b.spaces.At(level).keys.value.remote, level, version, dst, src,
                                 frames, pn, pnLen, established);
  }

  /** The packet number fits its encoding up to 2^32, where four bytes begin to truncate it. */
  lemma FitsEncoding(pn: nat)
    ensures pn < Pow256(EncodedPnLen(pn)) <==> pn < 0x1_0000_0000
  {
    assert Pow256(1) == 256 && Pow256(2) == 65536;
    assert Pow256(4) == 65536 * Pow256(2);
  }

  /** The mask that leaves a short header readable before its protection is removed. */
  predicate MaskPasses(s: DirectionalKeys, packet: Data, dst: Data, pnLen: nat)
    requires HasSample(s, packet, 1 + |dst|)
  {
    var m := ProtectionLaws.ShortMask(s, packet, dst)[0];
    m / 8 % 4 == 0 && m % 4 != pnLen % 4
  }

  /** The next packet of a connection, in any space, is received by a peer with matching keys: one
      with a long header whenever its number is below 2^32; a short one, when its number is in the
      window, if and only if its mask passes, and it is refused otherwise. */
  lemma NextPacketReceived(a: Conn, b: Conn)
    requires a.state != State.Closed && Depart(a).1.Sent?
    requires var out := Depart(a).1;
             && b.spaces.At(out.level).keys.Some?
             && Opens(a.spaces.At(out.level).keys.value.local, b.spaces.At(out.level).keys.value.remote)
    requires a.version != 0 && |a.srcCid| <= MAX_CID_LEN && |a.dstCid| == |b.dstCid| <= MAX_CID_LEN
    ensures var out := Depart(a).1;
            && out.packet != []
            && (out.packet[0] >= 0x80 <==> out.level != APPDATA || a.state != Established)
            && (out.packet[0] >= 0x80 && out.pn < 0x1_0000_0000 ==>
                  SampleThere(b, out.packet) && Arrives(b, out))
            && (out.packet[0] < 0x80
                && PacketLaws.InWindow(b.spaces.appdata.largestRecvPn, out.pn, EncodedPnLen(out.pn)) ==>
                  var s := a.spaces.At(out.level).keys.value.local;
                  && SampleThere(b, out.packet) && HasSample(s, out.packet, 1 + |a.dstCid|)
                  && (if MaskPasses(s, out.packet, a.dstCid, EncodedPnLen(out.pn))
                      then Arrives(b, out)
                      else Receive(b, out.packet) == Err(BadPacket)))
  {
    hide SealPacket, Open, Waiting, Receive, SampleThere, Opens, PacketLaws.InWindow, Pow256, EncodedPnLen,
         ProtectionLaws.PadCount, FrameLaws.Pads, HasSample, ProtectionLaws.ShortMask, Sturdy;
    var out := Depart(a).1;
    var s := a.spaces.At(out.level).keys.value.local;
    WaitingSturdy(a, out.level);
    Shape(s, out.level, a.version, a.dstCid, a.srcCid, out.frames, out.pn, EncodedPnLen(out.pn),
          a.state == Established);
    if out.level != APPDATA || a.state != Established {
      FitsEncoding(out.pn);
      if out.pn < 0x1_0000_0000 {
        LongReceived(b, s, out.level, a.version, a.dstCid, a.srcCid, out.frames, out.pn,
                     EncodedPnLen(out.pn), a.state == Established);
      }
    } else if PacketLaws.InWindow(b.spaces.appdata.largestRecvPn, out.pn, EncodedPnLen(out.pn)) {
      ShortReceived(b, s, a.version, a.dstCid, a.srcCid, out.frames, out.pn, EncodedPnLen(out.pn));
    }
  }

  /** The peer finds in the packet the space, the number and the frames, followed by PADDING. */
  ghost predicate Arrives(b: Conn, out: Departure)
    requires out.Sent? && out.packet != [] && SampleThere(b, out.packet)
  {
    exists k :: Receive(b, out.packet) == Ok(Arrival(out.level, out.pn, out.frames + FrameLaws.Pads(k)))
  }

  /** Which header form a packet has. */
  lemma Shape(s: DirectionalKeys, level: Level, version: U32, dst: Data, src: Data,
              frames: seq<Frames.Frame>, pn: nat, n: nat, established: bool)
    requires 1 <= n <= 4 && SealPacket(s, level, version, dst, src, frames, pn, n, established).Ok?
    ensures var packet := SealPacket(s, level, version, dst, src, frames, pn, n, established).value;
            packet != [] && (packet[0] >= 0x80 <==> level != APPDATA || !established)
  {
    hide PaddedPayload, AllWritable, LongMiddle, LongFirst, BigEndian, ShortFirstByte, SealWith;
    var payload := PaddedPayload(s, level, dst, src, Frames.ListWire(frames, []), n);
    if level != APPDATA || !established {
      var h := HeaderFor(s, level, version, dst, src, |payload|, n);
      ProtectionLaws.LongFirstLen(h);
      FormKept(s, LongFirst(h), LongMiddle(h, []), BigEndian(pn, n), pn, payload);
    } else {
      ShortForm(n);
      FormKept(s, ShortFirstByte(n, false), dst, BigEndian(pn, n), pn, payload);
    }
  }

  lemma ShortForm(pnLen: nat)
    requires 1 <= pnLen <= 4
    ensures ShortFirstByte(pnLen, false) < 0x80
  {
  }

  /** Header protection leaves the form bit alone. */
  lemma FormKept(s: DirectionalKeys, first: Byte, middle: Data, pnBytes: Data, pn: nat, payload: Data)
    requires 1 <= |pnBytes| <= 4 && SealWith(s, first, middle, pnBytes, pn, payload).Ok?
    ensures var packet := SealWith(s, first, middle, pnBytes, pn, payload).value;
            packet != [] && (packet[0] >= 0x80 <==> first >= 0x80)
  {
    hide MaskPn, Xor, FirstMask;
    var sealed := s.seal(pn, [first] + (middle + pnBytes), payload).value;
    ProtectionLaws.FirstTwice(first, s.mask(sealed[4 - |pnBytes|..][..s.sampleLen]));
  }
}
