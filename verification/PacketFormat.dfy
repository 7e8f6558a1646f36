/**
 The bytes of protected packets with every position, bit and code written out, as section 17 of
 RFC 9000 and section 5 of RFC 9001 draw them: what the builders make, what they refuse, and what
 the receiver makes of any bytes.
 */
module PacketFormat {
  import opened Wrappers
  import opened Bytes
  import opened Packets
  import opened Protection
  import Frames
  import ProtectionLaws
  import VarInt

  // ------------------------------------------------------------ long packets

  /** A long header between its first byte and its packet number, with `length` in Length. */
  function Middle(level: Level, version: U32, dst: Data, src: Data, length: nat): Data
    requires |dst| < 256 && |src| < 256
  {
    BigEndian(version, 4) + ([|dst|] + (dst + ([|src|] + (src + ((if level == 0 then [0] else [])
    + VarInt.Enc(length))))))
  }

  /** Form, fixed bit, the type of the level in bits 4 and 5 (0 for Initial, 2 for Handshake, 1 for
      application data), the length of the packet number in the low two. */
  function LongByte(level: Level, pnLen: nat): Byte
    requires 1 <= pnLen <= 4
  {
    0xc0 + 16 * (if level == 0 then 0 else if level == 1 then 2 else 1) + (pnLen - 1)
  }

  lemma HeaderBytes(keys: DirectionalKeys, level: Level, version: U32, dst: Data, src: Data,
                    payload: nat, pnLen: nat)
    requires 1 <= pnLen <= 4 && |dst| < 256 && |src| < 256
    ensures var h := HeaderFor(keys, level, version, dst, src, payload, pnLen);
            && h.length == Some(pnLen + payload + keys.tagLen)
            && LongFirst(h) == LongByte(level, pnLen)
            && LongMiddle(h, []) == Middle(level, version, dst, src, pnLen + payload + keys.tagLen)
  {
    hide BigEndian;
    var length := pnLen + payload + keys.tagLen;
    assert VarInt.Enc(0) == [0];
    hide VarInt.Enc;
    assert VarInt.Enc(length) + [] == VarInt.Enc(length);
    assert [] + VarInt.Enc(length) == VarInt.Enc(length);
    assert [0] + ([] + VarInt.Enc(length)) == [0] + VarInt.Enc(length);
  }

  /** Byte `i` of a packet number is masked with byte `i + 1` of the mask, as far as the first byte
      announces: always one more than its low two bits, in both header forms. */
  ghost predicate PnMasked(masked: Data, pn: Data, mask: Mask, first: Byte)
  {
    |masked| == |pn| <= 4 && forall i :: 0 <= i < |pn| ==>
      masked[i] == if i < first % 4 + 1 then Xor(pn[i], mask[1 + i]) else pn[i]
  }

  /** A protected packet: the mask is made of the sample that starts four bytes behind the start of
      the packet number; it covers four low bits of a long first byte and five of a short one. */
  lemma Protected(keys: DirectionalKeys, first: Byte, middle: Data, pn: Data, sealed: Data)
    requires 1 <= |pn| <= 4 && |sealed| >= 4 - |pn| + keys.sampleLen
    ensures var packet, at := Protect(keys, first, middle, pn, sealed), 1 + |middle|;
            && |packet| == at + |pn| + |sealed| >= at + 4 + keys.sampleLen
            && var mask := keys.mask(packet[at + 4..at + 4 + keys.sampleLen]);
            && packet[0] == Xor(first, if first >= 0x80 then mask[0] % 16 else mask[0] % 32)
            && packet[1..at] == middle && PnMasked(packet[at..at + |pn|], pn, mask, first)
            && packet[at + |pn|..] == sealed
  {
    hide Xor;
    var mask := keys.mask(sealed[4 - |pn|..][..keys.sampleLen]);
    var masked := MaskPn(pn, mask, first % 4 + 1);
    var f := Xor(first, FirstMask(first, mask));
    var packet, at := Protect(keys, first, middle, pn, sealed), 1 + |middle|;
    assert packet == [f] + (middle + (masked + sealed));
    ProtectionLaws.PacketParts(f, middle, masked, sealed);
    assert packet[at + 4..at + 4 + keys.sampleLen] == packet[at + 4..][..keys.sampleLen];
    assert packet[at..at + |pn|] == masked;
  }

  /** Every long packet, byte for byte: the header with its Length, sealed together with the
      payload under its number, and then protected. */
  lemma LongPacket(keys: DirectionalKeys, level: Level, version: U32, dst: Data, src: Data,
                   payload: Data, pn: nat, pnLen: nat)
    requires 1 <= pnLen <= 4 && |dst| < 256 && |src| < 256
    requires SealLong(keys, level, version, dst, src, payload, pn, pnLen).Ok?
    ensures var packet := SealLong(keys, level, version, dst, src, payload, pn, pnLen).value;
            var first := LongByte(level, pnLen);
            var middle := Middle(level, version, dst, src, pnLen + |payload| + keys.tagLen);
            var at := 1 + |middle|;
            var sealed := keys.seal(pn, [first] + (middle + BigEndian(pn, pnLen)), payload);
            && |packet| >= at + 4 + keys.sampleLen
            && var mask := keys.mask(packet[at + 4..at + 4 + keys.sampleLen]);
            && packet[0] == Xor(first, mask[0] % 16) && packet[1..at] == middle
            && PnMasked(packet[at..at + pnLen], BigEndian(pn, pnLen), mask, first)
            && sealed == Some(packet[at + pnLen..])
  {
    hide Xor, BigEndian, Middle, LongMiddle, LongFirst, MaskPn, PnMasked, HeaderFor;
    HeaderBytes(keys, level, version, dst, src, |payload|, pnLen);
    var first, middle := LongByte(level, pnLen), Middle(level, version, dst, src, pnLen + |payload| + keys.tagLen);
    var sealed := keys.seal(pn, [first] + (middle + BigEndian(pn, pnLen)), payload).value;
    Protected(keys, first, middle, BigEndian(pn, pnLen), sealed);
    hide Protect;
  }

  /** The cipher's text is as long as the payload and its tag. */
  ghost predicate Expands(keys: DirectionalKeys)
  {
    forall pn, aad, text :: keys.seal(pn, aad, text).Some? ==>
      |keys.seal(pn, aad, text).value| == |text| + keys.tagLen
  }

  /** Length, as a receiver reads it from the protected packet, counts exactly the bytes from the
      packet number to the end. */
  ghost predicate LengthCounts(packet: Data)
  {
    && LongHeaderAt(packet).Ok?
    && var h := LongHeaderAt(packet).value.0;
    && PnOffsetLong(h) <= |packet| && h.length == Some(|packet| - PnOffsetLong(h))
  }

  lemma LengthOfLong(keys: DirectionalKeys, level: Level, version: U32, dst: Data, src: Data,
                     payload: Data, pn: nat, pnLen: nat)
    requires Expands(keys) && 1 <= pnLen <= 4 && version != 0 && |dst| <= 20 && |src| <= 20
    requires SealLong(keys, level, version, dst, src, payload, pn, pnLen).Ok?
    ensures LengthCounts(SealLong(keys, level, version, dst, src, payload, pn, pnLen).value)
  {
    hide Xor, BigEndian, Middle, LongMiddle, LongFirst, MaskPn, PnMasked, LongHeaderAt, PnOffsetLong;
    LongPacket(keys, level, version, dst, src, payload, pn, pnLen);
    HeaderBytes(keys, level, version, dst, src, |payload|, pnLen);
    var h := HeaderFor(keys, level, version, dst, src, |payload|, pnLen);
    ProtectionLaws.ProtectedLongHeader(keys, h, pn, payload);
  }

  /** So it is in every long packet this code builds: the packets of `egest`, the client's first
      packet, and the Initial of `handshake.rs`. */
  lemma LengthIsRight(keys: DirectionalKeys, level: Level, version: U32, dst: Data, src: Data,
                      frames: seq<Frames.Frame>, pn: nat, pnLen: nat, established: bool, hello: Data)
    requires Expands(keys) && 1 <= pnLen <= 4 && version != 0 && |dst| <= 20 && |src| <= 20
    ensures (level != 2 || !established)
            && SealPacket(keys, level, version, dst, src, frames, pn, pnLen, established).Ok? ==>
              LengthCounts(SealPacket(keys, level, version, dst, src, frames, pn, pnLen, established).value)
    ensures FirstInitial(keys, dst, src, hello).Ok? ==> LengthCounts(FirstInitial(keys, dst, src, hello).value)
    ensures ReservedInitial(keys, dst, src, hello).Ok? ==>
              LengthCounts(ReservedInitial(keys, dst, src, hello).value)
  {
    hide SealLong, SealShort, LengthCounts, PaddedPayload, AllWritable, Frames.ListWire, Frames.WireTo, InitialPayload;
    var payload := PaddedPayload(keys, level, dst, src, Frames.ListWire(frames, []), pnLen);
    if SealLong(keys, level, version, dst, src, payload, pn, pnLen).Ok? {
      LengthOfLong(keys, level, version, dst, src, payload, pn, pnLen);
    }
    var wire := Frames.Wire(ClientHelloFrame(hello));
    var first := PadData(wire, InitialPayload(|dst|, |src|, |wire|, 1, keys.tagLen));
    if SealLong(keys, INITIAL, VERSION_1, dst, src, first, 0, 1).Ok? {
      LengthOfLong(keys, INITIAL, VERSION_1, dst, src, first, 0, 1);
    }
    var reserved := PadData(wire, Sub(MIN_INITIAL_SIZE, 1 + 4 + 1 + |dst| + 1 + |src| + 1 + 2 + 1 + keys.tagLen));
    if SealLong(keys, INITIAL, VERSION_1, dst, src, reserved, 0, 1).Ok? {
      LengthOfLong(keys, INITIAL, VERSION_1, dst, src, reserved, 0, 1);
    }
  }

  // ------------------------------------------------------------ short packets

  /** Every short packet, byte for byte. Under the mask its first byte has the fixed bit, the key
      phase as given, and the length of the packet number, with 0 for four; spin and reserved bits
      are clear. */
  lemma ShortPacket(keys: DirectionalKeys, dst: Data, payload: Data, pn: nat, pnLen: nat, keyPhase: bool)
    requires 1 <= pnLen <= 4
    requires SealShort(keys, dst, payload, pn, pnLen, keyPhase).Ok?
    ensures var packet := SealShort(keys, dst, payload, pn, pnLen, keyPhase).value;
            var first := 0x40 + (if keyPhase then 0x04 else 0) + (if pnLen == 4 then 0 else pnLen);
            var at := 1 + |dst|;
            var sealed := keys.seal(pn, [first] + (dst + BigEndian(pn, pnLen)), payload);
            && |packet| >= at + 4 + keys.sampleLen
            && var mask := keys.mask(packet[at + 4..at + 4 + keys.sampleLen]);
            && Xor(packet[0], mask[0] % 32) == first && packet[0] < 0x80 && packet[1..at] == dst
            && PnMasked(packet[at..at + pnLen], BigEndian(pn, pnLen), mask, first)
            && sealed == Some(packet[at + pnLen..])
  {
    hide Xor, BigEndian, MaskPn, PnMasked;
    var first := 0x40 + (if keyPhase then 0x04 else 0) + (if pnLen == 4 then 0 else pnLen);
    assert ShortFirstByte(pnLen, keyPhase) == first;
    var sealed := keys.seal(pn, [first] + (dst + BigEndian(pn, pnLen)), payload).value;
    Protected(keys, first, dst, BigEndian(pn, pnLen), sealed);
    var packet, at := SealShort(keys, dst, payload, pn, pnLen, keyPhase).value, 1 + |dst|;
    var m := keys.mask(packet[at + 4..at + 4 + keys.sampleLen])[0] % 32;
    hide Protect;
    XorTwice(first, m);
    XorKeepsHigh(first, m);
  }

  /** The application packets of an established connection are such packets, with the key phase
      bit clear: no packet announces a key update. */
  lemma ShortFirstByteIs(keys: DirectionalKeys, version: U32, dst: Data, src: Data,
                         frames: seq<Frames.Frame>, pn: nat, pnLen: nat)
    requires 1 <= pnLen <= 4
    requires SealPacket(keys, APPDATA, version, dst, src, frames, pn, pnLen, true).Ok?
    ensures var packet := SealPacket(keys, APPDATA, version, dst, src, frames, pn, pnLen, true).value;
            && HasSample(keys, packet, 1 + |dst|)
            && var f := Xor(packet[0], ProtectionLaws.ShortMask(keys, packet, dst)[0] % 32);
            && f == 0x40 + (if pnLen == 4 then 0 else pnLen)
            && f / 64 == 1 && f / 32 % 2 == 0 && f / 8 % 4 == 0 && f / 4 % 2 == 0
            && packet[1..1 + |dst|] == dst
  {
    hide Xor, BigEndian, PnMasked, SealShort, PaddedPayload, AllWritable, Frames.ListWire;
    var payload := PaddedPayload(keys, APPDATA, dst, src, Frames.ListWire(frames, []), pnLen);
    ShortPacket(keys, dst, payload, pn, pnLen, false);
    var packet, at := SealShort(keys, dst, payload, pn, pnLen, false).value, 1 + |dst|;
    assert packet[at + 4..][..keys.sampleLen] == packet[at + 4..at + 4 + keys.sampleLen];
  }

  // ------------------------------------------------------------ refusals of the builders

  /** A packet is refused for its frames, for a Length beyond 2^62, or by the cipher. */
  lemma SealRefusals(keys: DirectionalKeys, level: Level, version: U32, dst: Data, src: Data,
                     frames: seq<Frames.Frame>, pn: nat, pnLen: nat, established: bool)
    requires 1 <= pnLen <= 4
    requires SealPacket(keys, level, version, dst, src, frames, pn, pnLen, established).Err?
    ensures SealPacket(keys, level, version, dst, src, frames, pn, pnLen, established).error
         == if exists f :: f in frames && !Frames.Writable(f) then BadFrame else Transport(0x01)
  {
    hide Frames.Writable, PaddedPayload, Protect, LongFirst, LongMiddle, BigEndian, Frames.ListWire;
  }

  /** One byte of packet number below 256, two below 65536, four beyond. */
  lemma PnLengths(pn: nat)
    ensures pn < 256 ==> EncodedPnLen(pn) == 1
    ensures 256 <= pn < 65536 ==> EncodedPnLen(pn) == 2
    ensures 65536 <= pn ==> EncodedPnLen(pn) == 4
  {
  }

  // ------------------------------------------------------------ opening

  /** `first` and `pnBytes` are the first byte and the packet number of a protected packet without
      their mask, which is made of the sample four bytes behind the packet number. */
  ghost predicate Bare(keys: DirectionalKeys, long: bool, packet: Data, at: nat, first: Byte, pnBytes: Data)
    requires 1 <= at && |packet| >= at + 4 + keys.sampleLen
  {
    var mask := keys.mask(packet[at + 4..at + 4 + keys.sampleLen]);
    && first == Xor(packet[0], if packet[0] >= 0x80 then mask[0] % 16 else mask[0] % 32)
    && |pnBytes| == (if long then first % 4 + 1 else if first % 4 == 0 then 4 else first % 4)
    && PnMasked(pnBytes, packet[at..at + |pnBytes|], mask, first)
  }

  lemma Uncovered(keys: DirectionalKeys, long: bool, packet: Data, at: nat, first: Byte, pnBytes: Data)
    requires 1 <= at && |packet| >= at + 4 + keys.sampleLen && Bare(keys, long, packet, at, first, pnBytes)
    ensures Unprotect(keys, long, packet, at)
         == Unprotected(pnBytes, [first] + (packet[1..at] + pnBytes), packet[at + |pnBytes|..])
  {
    hide Xor;
    var mask := keys.mask(packet[at + 4..at + 4 + keys.sampleLen]);
    assert packet[at + 4..][..keys.sampleLen] == packet[at + 4..at + 4 + keys.sampleLen];
    var pn := MaskPn(packet[at..at + 4], mask, first % 4 + 1)[..|pnBytes|];
    assert pn == pnBytes by {
      forall i | 0 <= i < |pnBytes| ensures pn[i] == pnBytes[i] {
        assert packet[at..at + 4][i] == packet[at..at + |pnBytes|][i];
      }
    }
    hide MaskPn, PnMasked;
  }

  /** Opening, byte for byte: the uncovered first byte and packet number, and the header between
      them, are the associated data, and what follows is the sealed text. A text that the cipher
      refuses is a protocol violation, one that is no list of frames a bad frame. */
  lemma OpenMeans(keys: DirectionalKeys, long: bool, largest: nat, packet: Data, at: nat, first: Byte, pnBytes: Data)
    requires 1 <= at && |packet| >= at + 4 + keys.sampleLen && Bare(keys, long, packet, at, first, pnBytes)
    ensures var n := |pnBytes|;
            && 1 <= n <= 4 && Value(pnBytes) < Pow256(n)
            && var pn := DecodePacketNumber(largest, Value(pnBytes), n);
            Open(keys, long, largest, packet, at)
            == match keys.open(pn, [first] + (packet[1..at] + pnBytes), packet[at + n..])
               case None => Err(Transport(0x0a))
               case Some(text) =>
                 if Frames.FramesOf(text).Err? then Err(BadFrame) else Ok((pn, Frames.FramesOf(text).value))
  {
    hide Xor, Frames.FramesOf, DecodePacketNumber, Unprotect, PnMasked, Value, ReadPn;
    Uncovered(keys, long, packet, at, first, pnBytes);
    ValueBound(pnBytes);
  }

  /** A long packet without its sample is a bad packet; all others are opened against 0. */
  lemma OpenLongMeans(keys: DirectionalKeys, packet: Data, at: nat)
    requires 1 <= at
    ensures |packet| < at + 4 + keys.sampleLen ==> OpenLong(keys, packet, at) == Err(BadPacket)
    ensures |packet| >= at + 4 + keys.sampleLen ==>
              OpenLong(keys, packet, at) == Open(keys, true, 0, packet, at)
  {
    hide Open;
  }
}
