/** What a receiver recovers from a protected packet, and how large packets are. */
module ProtectionLaws {
  import opened Wrappers
  import opened Bytes
  import opened Packets
  import opened Protection
  import Frames
  import FrameLaws
  import PacketLaws
  import VarInt

  lemma PacketParts(first: Byte, middle: Data, pn: Data, sealed: Data)
    requires 1 <= |pn| <= 4 && |sealed| >= 4 - |pn|
    ensures var p := [first] + (middle + (pn + sealed));
            var off := 1 + |middle|;
            && |p| == off + |pn| + |sealed|
            && p[0] == first && p[1..off] == middle
            && p[off + 4..] == sealed[4 - |pn|..]
            && |p[off..off + 4]| == 4 && p[off..off + 4][..|pn|] == pn
            && p[off + |pn|..] == sealed
  {
  }

  /** Masking twice with the same mask gives the bytes back, also when only a prefix of a
      longer slice is looked at. */
  lemma MaskPnTwice(pn: Data, slice: Data, mask: Mask, n: nat)
    requires |pn| <= |slice| <= 4 && slice[..|pn|] == MaskPn(pn, mask, n)
    ensures MaskPn(slice, mask, n)[..|pn|] == pn
  {
    forall i | 0 <= i < |pn| ensures MaskPn(slice, mask, n)[i] == pn[i] {
      assert slice[i] == slice[..|pn|][i];
      XorTwice(pn[i], mask[1 + i]);
    }
  }

  lemma FirstTwice(first: Byte, mask: Mask)
    ensures var f := Xor(first, FirstMask(first, mask));
            && (f >= 0x80 <==> first >= 0x80) && FirstMask(f, mask) == FirstMask(first, mask)
            && Xor(f, FirstMask(f, mask)) == first
            && (first >= 0x80 ==> f / 16 == first / 16) && f / 32 == first / 32
  {
    hide Xor;
    XorKeepsHigh(first, FirstMask(first, mask));
    XorTwice(first, FirstMask(first, mask));
  }

  /** The receiver, assuming a four-byte packet number, finds the sender's sample, and removing
      the mask restores packet number, associated data and sealed text. */
  lemma UnprotectInverts(s: DirectionalKeys, r: DirectionalKeys, long: bool,
                         first: Byte, middle: Data, pn: Data, sealed: Data)
    requires Opens(s, r)
    requires 1 <= |pn| <= 4 && |sealed| >= 4 - |pn| + s.sampleLen && PnLenOf(long, first) == |pn|
    ensures var packet := Protect(s, first, middle, pn, sealed);
            && HasSample(r, packet, 1 + |middle|)
            && Unprotect(r, long, packet, 1 + |middle|)
               == Unprotected(pn, [first] + (middle + pn), sealed)
  {
    hide Xor, FirstMask, MaskPn, PnLenOf;
    var mask := s.mask(sealed[4 - |pn|..][..s.sampleLen]);
    var f := Xor(first, FirstMask(first, mask));
    var masked := MaskPn(pn, mask, first % 4 + 1);
    var packet := Protect(s, first, middle, pn, sealed);
    assert packet == [f] + (middle + (masked + sealed));
    PacketParts(f, middle, masked, sealed);
    FirstTwice(first, mask);
    MaskPnTwice(pn, packet[1 + |middle|..1 + |middle| + 4], mask, first % 4 + 1);
  }

  /** Opening what the peer sealed gives its frames, if the packet number is recovered. */
  lemma OpenInverts(s: DirectionalKeys, r: DirectionalKeys, long: bool, largest: nat,
                    first: Byte, middle: Data, pn: nat, pnLen: nat, payload: Data,
                    frames: seq<Frames.Frame>)
    requires Opens(s, r) && 1 <= pnLen <= 4 && PnLenOf(long, first) == pnLen
    requires SealWith(s, first, middle, BigEndian(pn, pnLen), pn, payload).Ok?
    requires DecodePacketNumber(largest, Mod(pn, Pow256(pnLen)), pnLen) == pn
    requires Frames.FramesOf(payload) == Ok(frames)
    ensures var packet := SealWith(s, first, middle, BigEndian(pn, pnLen), pn, payload).value;
            HasSample(r, packet, 1 + |middle|)
            && Open(r, long, largest, packet, 1 + |middle|) == Ok((pn, frames))
  {
    hide Protect, Unprotect, DecodePacketNumber, ReadPn, Frames.FramesOf, BigEndian, PnLenOf, Mod;
    var pnBytes := BigEndian(pn, pnLen);
    var sealed := s.seal(pn, [first] + (middle + pnBytes), payload).value;
    UnprotectInverts(s, r, long, first, middle, pnBytes, sealed);
    ReadTruncated(pn, pnLen);
  }

  // ------------------------------------------------------------ padding

  lemma ZerosAdd(m: nat, n: nat)
    ensures Zeros(m) + Zeros(n) == Zeros(m + n)
  {
  }

  /** The number of PADDING frames a packet carries behind its frames. */
  function PadCount(keys: DirectionalKeys, level: Level, dst: Data, src: Data,
                    frames: seq<Frames.Frame>, pnLen: nat): nat
    requires pnLen <= 4
  {
    var wire := Frames.ListWire(frames, []);
    Sub(|PaddedPayload(keys, level, dst, src, wire, pnLen)|, |wire|)
  }

  /** Padding is zero bytes behind the frames, read back as PADDING frames. */
  lemma PaddedBack(keys: DirectionalKeys, level: Level, dst: Data, src: Data,
                   frames: seq<Frames.Frame>, pnLen: nat)
    requires 1 <= pnLen <= 4 && AllWritable(frames)
    ensures var k := PadCount(keys, level, dst, src, frames, pnLen);
            var payload := PaddedPayload(keys, level, dst, src, Frames.ListWire(frames, []), pnLen);
            && payload == Frames.ListWire(frames, Zeros(k))
            && (FrameLaws.ListRecoverable(frames, Zeros(k)) ==>
                  Frames.FramesOf(payload) == Ok(frames + FrameLaws.Pads(k)))
  {
    hide InitialPayload, Frames.ListWire, Frames.FramesOf, FrameLaws.ListRecoverable;
    var wire := Frames.ListWire(frames, []);
    var k := PadCount(keys, level, dst, src, frames, pnLen);
    var a := if level == INITIAL
             then Sub(InitialPayload(|dst|, |src|, |wire|, pnLen, keys.tagLen), |wire|) else 0;
    var b := Sub(keys.sampleLen + 4 - pnLen, |wire| + a);
    ZerosAdd(a, b);
    assert PaddedPayload(keys, level, dst, src, wire, pnLen) == wire + Zeros(a + b) by {
      assert wire + Zeros(a) + Zeros(b) == wire + (Zeros(a) + Zeros(b));
      assert wire + Zeros(0) == wire;
    }
    FrameLaws.ListTail(frames, Zeros(k));
    FrameLaws.ListRoundTrip(frames, k);
  }

  // ------------------------------------------------------------ whole packets

  /** A long packet and what its receiver makes of it: the header tells the space and where the
      packet number is, and the frames come back followed only by PADDING, for any mask. */
  lemma LongRoundTrip(s: DirectionalKeys, r: DirectionalKeys, level: Level, version: U32,
                      dst: Data, src: Data, frames: seq<Frames.Frame>, pn: nat, pnLen: nat,
                      established: bool)
    requires Opens(s, r) && 1 <= pnLen <= 4 && pn < Pow256(pnLen)
    requires version != 0 && |dst| <= MAX_CID_LEN && |src| <= MAX_CID_LEN
    requires level != APPDATA || !established
    requires SealPacket(s, level, version, dst, src, frames, pn, pnLen, established).Ok?
    requires FrameLaws.ListRecoverable(frames, Zeros(PadCount(s, level, dst, src, frames, pnLen)))
    ensures var packet := SealPacket(s, level, version, dst, src, frames, pn, pnLen, established).value;
            && packet != [] && packet[0] >= 0x80
            && LongHeaderAt(packet).Ok?
            && var h := LongHeaderAt(packet).value.0;
            && h.ty == TypeOfLevel(level) && h.version == version
            && h.dstCid == dst && h.srcCid == src
            && OpenLong(r, packet, PnOffsetLong(h))
               == Ok((pn, frames + FrameLaws.Pads(PadCount(s, level, dst, src, frames, pnLen))))
  {
    hide PadCount, PaddedPayload, SealWith, Open, HasSample, DecodePacketNumber, Mod, Pow256,
         Frames.FramesOf, FrameLaws.ListRecoverable, BigEndian, LongMiddle, LongFirst,
         AllWritable, LongHeaderAt, PnOffsetLong;
    var k := PadCount(s, level, dst, src, frames, pnLen);
    var payload := PaddedPayload(s, level, dst, src, Frames.ListWire(frames, []), pnLen);
    PaddedBack(s, level, dst, src, frames, pnLen);
    var h := HeaderFor(s, level, version, dst, src, |payload|, pnLen);
    PacketLaws.DecodeAgainstZero(pn, pnLen);
    LongFirstLen(h);
    OpenInverts(s, r, true, 0, LongFirst(h), LongMiddle(h, []), pn, pnLen, payload,
                frames + FrameLaws.Pads(k));
    ProtectedLongHeader(s, h, pn, payload);
  }

  lemma LongFirstLen(h: LongHeader)
    requires h.pnLen.Some? && 1 <= h.pnLen.value <= 4
    ensures PnLenOf(true, LongFirst(h)) == h.pnLen.value && LongFirst(h) >= 0x80
  {
  }

  /** The receiver reads a protected long header, and finds the packet number, by fields that
      are not protected. */
  lemma ProtectedLongHeader(s: DirectionalKeys, h: LongHeader, pn: nat, payload: Data)
    requires PacketLaws.Readable(h) && PacketLaws.Encodable(h) && h.length.Some?
    requires h.ty == Initial ==> h.token == Some([])
    requires SealWith(s, LongFirst(h), LongMiddle(h, []), BigEndian(pn, h.pnLen.value), pn, payload).Ok?
    ensures var packet := SealWith(s, LongFirst(h), LongMiddle(h, []),
                                   BigEndian(pn, h.pnLen.value), pn, payload).value;
            && packet != [] && packet[0] >= 0x80 && LongHeaderAt(packet).Ok?
            && var got := LongHeaderAt(packet).value.0;
            && got.ty == h.ty && got.version == h.version && got.dstCid == h.dstCid
            && got.srcCid == h.srcCid && got.length == h.length
            && PnOffsetLong(got) == 1 + |LongMiddle(h, [])|
  {
    hide Xor, FirstMask, MaskPn, LongMiddle, LongFirst, LongHeaderAt, PnOffsetLong, ReadPn, BigEndian;
    var first, middle, pnBytes := LongFirst(h), LongMiddle(h, []), BigEndian(pn, h.pnLen.value);
    var sealed := s.seal(pn, [first] + (middle + pnBytes), payload).value;
    var mask := s.mask(sealed[4 - |pnBytes|..][..s.sampleLen]);
    var f := Xor(first, FirstMask(first, mask));
    var tail := MaskPn(pnBytes, mask, first % 4 + 1) + sealed;
    FirstTwice(first, mask);
    LongFirstLen(h);
    PacketLaws.LongMiddleTail(h, [], tail);
    assert [] + tail == tail;
    PacketLaws.LongHeaderBack(h, f, tail);
    MiddleLength(h);
    OffsetBySame(h, LongHeaderAt([f] + LongMiddle(h, tail)).value.0);
  }

  lemma OffsetBySame(h: LongHeader, got: LongHeader)
    requires got.ty == h.ty && got.dstCid == h.dstCid && got.srcCid == h.srcCid
             && got.length == h.length
    ensures PnOffsetLong(got) == PnOffsetLong(h)
  {
  }

  lemma MiddleLength(h: LongHeader)
    requires h.length.Some? && h.length.value <= VarInt.VARINT_MAX
    requires if h.ty == Initial then h.token == Some([]) else h.token == None
    ensures 1 + |LongMiddle(h, [])| == PnOffsetLong(h)
  {
    hide VarInt.Encoding, BigEndian;
    assert VarInt.EncodedLen(0) == 1;
  }

  /** The layout that the receiver's offset arithmetic takes for granted: an Initial's token is
      empty and announced in one byte, and the Length is written in its shortest form. */
  predicate PlainLayout(buf: Data, h: LongHeader)
    requires h.length.Some?
  {
    var at := 7 + |h.dstCid| + |h.srcCid|;
    var lengthAt := if h.ty == Initial then at + 1 else at;
    && lengthAt <= |buf| && (h.ty == Initial ==> buf[at] == 0)
    && VarInt.Decode(buf[lengthAt..]) == Ok((h.length.value, VarInt.EncodedLen(h.length.value)))
  }

  /** On any numbered header the parser accepts, the receiver finds the packet number where the
      parser read it if and only if the header has the plain layout. */
  lemma OffsetIsRight(buf: Data)
    requires LongHeaderAt(buf).Ok? && LongHeaderAt(buf).value.0.pnLen.Some?
    ensures var (h, rest) := LongHeaderAt(buf).value;
            && h.length.Some?
            && (PnOffsetLong(h) == |buf| - |rest| - h.pnLen.value <==> PlainLayout(buf, h))
  {
    hide TypedAt, ReadPn;
    if Be4(buf[1], buf[2], buf[3], buf[4]) != 0 {
      TypedOffset(FromBits(buf[0] / 16 % 4), Be4(buf[1], buf[2], buf[3], buf[4]), buf[0] % 4 + 1, buf);
    }
  }

  lemma TypedOffset(ty: LongType, version: U32, pnLen: nat, buf: Data)
    requires |buf| >= 5 && 1 <= pnLen <= 4
    requires TypedAt(ty, version, pnLen, buf[5..]).Ok?
             && TypedAt(ty, version, pnLen, buf[5..]).value.0.pnLen.Some?
    ensures var (h, rest) := TypedAt(ty, version, pnLen, buf[5..]).value;
            && h.length.Some? && h.pnLen.Some?
            && (PnOffsetLong(h) == |buf| - |rest| - h.pnLen.value <==> PlainLayout(buf, h))
  {
    hide NumberAt, TakeVarint, VarInt.Decode;
    var s := buf[5..];
    var (dst, s1) := TakeCid(s).value;
    var (src, s2) := TakeCid(s1).value;
    var at := 7 + |dst| + |src|;
    assert s1 == buf[6 + |dst|..] && s2 == buf[at..];
    var h := LongHeader(ty, version, dst, src, None, None, None, None);
    if ty == Initial {
      var (tokenLen, s3) := TakeVarint(s2).value;
      var (token, s4) := TakeFixed(s3, tokenLen).value;
      ShortToken(s2);
      NumberSpan(h.(token := Some(token)), pnLen, s4);
      if buf[at] == 0 {
        assert s4 == buf[at + 1..];
      }
    } else {
      NumberSpan(h, pnLen, s2);
    }
  }

  /** Length and packet number take the varint's bytes and the packet number's. */
  lemma NumberSpan(h: LongHeader, pnLen: nat, s: Data)
    requires NumberAt(h, pnLen, s).Ok?
    ensures var (got, rest) := NumberAt(h, pnLen, s).value;
            && VarInt.Decode(s).Ok?
            && got == h.(length := Some(VarInt.Decode(s).value.0), truncatedPn := got.truncatedPn,
                         pnLen := Some(pnLen))
            && |rest| == |s| - VarInt.Decode(s).value.1 - pnLen
            && VarInt.EncodedLen(VarInt.Decode(s).value.0) <= VarInt.Decode(s).value.1
  {
    hide VarInt.Decode, ReadPn;
    if VarInt.Decode(s).Ok? {
      VarInt.ShortestForm(s);
    }
  }

  /** A token takes one byte if and only if that byte is zero. */
  lemma ShortToken(s: Data)
    requires TakeVarint(s).Ok? && TakeFixed(TakeVarint(s).value.1, TakeVarint(s).value.0).Ok?
    ensures var (n, s1) := TakeVarint(s).value;
            var s2 := TakeFixed(s1, n).value.1;
            && s != [] && |s2| < |s| && (|s2| == |s| - 1 <==> s[0] == 0)
            && (s[0] == 0 ==> s2 == s[1..])
  {
    var (n, used) := VarInt.Decode(s).value;
    VarInt.DecodeMeaning(s);
  }

  /** An instance off the plain layout: a Handshake header with Length 20 in two bytes. Its packet
      number is at 9, and the receiver looks at 8. */
  lemma LongLengthMisplaced(t: Data)
    requires t != []
    ensures var buf: Data := [0xe0, 0, 0, 0, 1, 0, 0, 0x40, 20] + t;
            && LongHeaderAt(buf).Ok?
            && var (h, rest) := LongHeaderAt(buf).value;
            && h.pnLen == Some(1) && |buf| - |rest| - 1 == 9 && PnOffsetLong(h) == 8
  {
    var buf: Data := [0xe0, 0, 0, 0, 1, 0, 0, 0x40, 20] + t;
    assert buf[..9] == [0xe0, 0, 0, 0, 1, 0, 0, 0x40, 20];
    assert buf[0] == 0xe0 && buf[1] == 0 && buf[2] == 0 && buf[3] == 0 && buf[4] == 1;
    var s := buf[5..];
    assert s[0] == 0 && s[1] == 0 && s[2] == 0x40 && s[3] == 20;
    assert TakeCid(s) == Ok(([], s[1..]));
    assert TakeCid(s[1..]) == Ok(([], s[2..]));
    assert s[2..][0] == 0x40 && s[2..][1] == 20;
    assert VarInt.Decode(s[2..]) == Ok((20, 2));
    assert TakeVarint(s[2..]) == Ok((20, s[2..][2..]));
    assert |s[2..][2..]| == |t|;
    assert TakeFixed(s[2..][2..], 1).Ok?;
  }

  /** A short packet, for every packet-number length the sender picks: the receiver's different
      offset arithmetic finds the same sample, associated data and nonce, and returns the
      frames, whenever its window contains the packet number. */
  lemma ShortRoundTrip(s: DirectionalKeys, r: DirectionalKeys, version: U32, dst: Data, src: Data,
                       frames: seq<Frames.Frame>, pn: nat, pnLen: nat, largest: nat)
    requires Opens(s, r) && 1 <= pnLen <= 4 && PacketLaws.InWindow(largest, pn, pnLen)
    requires SealPacket(s, APPDATA, version, dst, src, frames, pn, pnLen, true).Ok?
    requires FrameLaws.ListRecoverable(frames, Zeros(PadCount(s, APPDATA, dst, src, frames, pnLen)))
    ensures var packet := SealPacket(s, APPDATA, version, dst, src, frames, pn, pnLen, true).value;
            && packet != [] && packet[0] < 0x80
            && HasSample(r, packet, 1 + |dst|)
            && Open(r, false, largest, packet, 1 + |dst|)
               == Ok((pn, frames + FrameLaws.Pads(PadCount(s, APPDATA, dst, src, frames, pnLen))))
  {
    hide PadCount, PaddedPayload, Open, HasSample, DecodePacketNumber, Mod, Pow256, Xor,
         Frames.FramesOf, FrameLaws.ListRecoverable, BigEndian, AllWritable, FirstMask, MaskPn,
         PacketLaws.InWindow, PnLenOf;
    var k := PadCount(s, APPDATA, dst, src, frames, pnLen);
    var payload := PaddedPayload(s, APPDATA, dst, src, Frames.ListWire(frames, []), pnLen);
    var first := ShortFirstByte(pnLen, false);
    PaddedBack(s, APPDATA, dst, src, frames, pnLen);
    PacketLaws.DecodeInverts(largest, pn, pnLen);
    assert PnLenOf(false, first) == pnLen by {
      ShortPnLen(pnLen);
    }
    OpenInverts(s, r, false, largest, first, dst, pn, pnLen, payload,
                frames + FrameLaws.Pads(k));
    var sealed := s.seal(pn, [first] + (dst + BigEndian(pn, pnLen)), payload).value;
    FirstTwice(first, s.mask(sealed[4 - pnLen..][..s.sampleLen]));
  }

  lemma ShortPnLen(pnLen: nat)
    requires 1 <= pnLen <= 4
    ensures PnLenOf(false, ShortFirstByte(pnLen, false)) == pnLen
  {
  }

  /** The mask that protects the header of a short packet. */
  function ShortMask(s: DirectionalKeys, packet: Data, dst: Data): Mask
    requires HasSample(s, packet, 1 + |dst|)
  {
    s.mask(packet[1 + |dst| + 4..][..s.sampleLen])
  }

  /** `ingest` looks at a short header before removing its protection. It accepts the packet
      exactly when the mask leaves the two reserved bits alone and does not turn the length
      bits to zero; an accepted packet has its connection ID where the sender put it. */
  lemma ShortAcceptance(s: DirectionalKeys, dst: Data, payload: Data, pn: nat, pnLen: nat)
    requires 1 <= pnLen <= 4 && |dst| <= MAX_CID_LEN
    requires SealShort(s, dst, payload, pn, pnLen, false).Ok?
    ensures var packet := SealShort(s, dst, payload, pn, pnLen, false).value;
            && HasSample(s, packet, 1 + |dst|)
            && var m := ShortMask(s, packet, dst)[0];
            && (ShortHeaderAt(packet, |dst|).Ok? <==> m / 8 % 4 == 0 && m % 4 != pnLen % 4)
            && (ShortHeaderAt(packet, |dst|).Ok? ==>
                  ShortHeaderAt(packet, |dst|).value.0.dstCid == dst)
            && (ShortHeaderAt(packet, |dst|).Err? ==>
                  ShortHeaderAt(packet, |dst|) == Err(ReservedBitsSet))
  {
    hide Xor, MaskPn, BigEndian, ReadPn;
    var first, pnBytes := ShortFirstByte(pnLen, false), BigEndian(pn, pnLen);
    var sealed := s.seal(pn, [first] + (dst + pnBytes), payload).value;
    var mask := s.mask(sealed[4 - pnLen..][..s.sampleLen]);
    var masked := MaskPn(pnBytes, mask, first % 4 + 1);
    var f := Xor(first, mask[0] % 32);
    var packet := SealShort(s, dst, payload, pn, pnLen, false).value;
    assert packet == [f] + (dst + (masked + sealed));
    PacketParts(f, dst, masked, sealed);
    MaskedFirst(pnLen, mask[0]);
    assert packet[1..] == dst + (masked + sealed);
    PacketLaws.TakeRaw(dst, masked + sealed);
  }

  /** The fields of a masked first byte that the short-header parser looks at. */
  lemma MaskedFirst(pnLen: nat, m: Byte)
    requires 1 <= pnLen <= 4
    ensures var f := Xor(ShortFirstByte(pnLen, false), m % 32);
            && f < 0x80 && f / 64 % 2 == 1
            && (f / 8 % 4 == 0 <==> m / 8 % 4 == 0) && (f % 4 == 0 <==> m % 4 == pnLen % 4)
  {
    hide Xor;
    var first := ShortFirstByte(pnLen, false);
    XorKeepsHigh(first, m % 32);
    XorFields(first, m % 32);
    LowFields(m);
    assert Xor(first, m % 32) / 32 == 2;
  }

  lemma LowFields(m: Byte)
    ensures m % 32 / 8 % 4 == m / 8 % 4 && m % 32 % 4 == m % 4
  {
    var q, r := m / 32, m % 32;
    assert m / 8 == 4 * q + r / 8;
    assert m / 4 == 8 * q + r / 4;
  }

  // ------------------------------------------------------------ sizes

  /** The cipher adds a 16-byte tag to a text of the same length, and samples are 16 bytes. */
  ghost predicate Sized(keys: DirectionalKeys)
  {
    && keys.tagLen == 16 && keys.sampleLen == 16
    && forall pn, aad, text :: keys.seal(pn, aad, text).Some? ==>
         |keys.seal(pn, aad, text).value| == |text| + 16
  }

  /** The padding always leaves enough sealed text for a sample: once its frames are written, a
      packet fails only when its Length has no encoding or the cipher refuses. */
  lemma SealsUnlessRefused(keys: DirectionalKeys, level: Level, version: U32, dst: Data, src: Data,
                           frames: seq<Frames.Frame>, pn: nat, pnLen: nat, established: bool)
    requires Sized(keys) && 1 <= pnLen <= 4 && AllWritable(frames)
    ensures var payload := PaddedPayload(keys, level, dst, src, Frames.ListWire(frames, []), pnLen);
            var h := HeaderFor(keys, level, version, dst, src, |payload|, pnLen);
            var pnBytes := BigEndian(pn, pnLen);
            SealPacket(keys, level, version, dst, src, frames, pn, pnLen, established).Ok? <==>
              if level == APPDATA && established
              then keys.seal(pn, [ShortFirstByte(pnLen, false)] + (dst + pnBytes), payload).Some?
              else h.length.value <= VarInt.VARINT_MAX
                   && keys.seal(pn, [LongFirst(h)] + (LongMiddle(h, []) + pnBytes), payload).Some?
  {
    hide Frames.ListWire, LongMiddle, LongFirst, BigEndian, InitialPayload, Xor, MaskPn, FirstMask;
  }

  /** The size of a sealed long packet. */
  lemma LongSize(keys: DirectionalKeys, level: Level, version: U32, dst: Data, src: Data,
                 payload: Data, pn: nat, pnLen: nat)
    requires Sized(keys) && 1 <= pnLen <= 4
    requires SealLong(keys, level, version, dst, src, payload, pn, pnLen).Ok?
    ensures |SealLong(keys, level, version, dst, src, payload, pn, pnLen).value|
         == 7 + |dst| + |src| + (if level == INITIAL then 1 else 0)
            + VarInt.EncodedLen(pnLen + |payload| + 16) + pnLen + |payload| + 16
  {
    hide LongMiddle, LongFirst, Xor, MaskPn, BigEndian, FirstMask, VarInt.EncodedLen;
    MiddleLength(HeaderFor(keys, level, version, dst, src, |payload|, pnLen));
  }

  /** The size of a sealed short packet. */
  lemma ShortSize(keys: DirectionalKeys, dst: Data, payload: Data, pn: nat, pnLen: nat)
    requires Sized(keys) && 1 <= pnLen <= 4
    requires SealShort(keys, dst, payload, pn, pnLen, false).Ok?
    ensures |SealShort(keys, dst, payload, pn, pnLen, false).value|
         == 1 + |dst| + pnLen + |payload| + 16
  {
    hide Xor, MaskPn, BigEndian, FirstMask, ShortFirstByte;
  }

  /** The bytes of frames and padding that a packet seals. */
  function PayloadSize(level: Level, dstLen: nat, srcLen: nat, wire: nat, pnLen: nat): nat
    requires pnLen <= 4
  {
    var n := if level == INITIAL then InitialPayload(dstLen, srcLen, wire, pnLen, 16) else 0;
    var padded := if wire < n then n else wire;
    if padded < 20 - pnLen then 20 - pnLen else padded
  }

  /** The size of a packet with `wire` bytes of frames, as a number. */
  function SizeOf(level: Level, long: bool, dstLen: nat, srcLen: nat, wire: nat, pnLen: nat): nat
    requires pnLen <= 4
  {
    var payload := PayloadSize(level, dstLen, srcLen, wire, pnLen);
    if long
    then 7 + dstLen + srcLen + (if level == INITIAL then 1 else 0)
         + VarInt.EncodedLen(pnLen + payload + 16) + pnLen + payload + 16
    else 1 + dstLen + pnLen + payload + 16
  }

  lemma PayloadSizeIs(keys: DirectionalKeys, level: Level, dst: Data, src: Data, wire: Data, pnLen: nat)
    requires keys.tagLen == 16 && keys.sampleLen == 16 && 1 <= pnLen <= 4
    ensures |PaddedPayload(keys, level, dst, src, wire, pnLen)|
         == PayloadSize(level, |dst|, |src|, |wire|, pnLen)
  {
    hide InitialPayload;
  }

  /** The size of every sealed packet, from the length of its frames, the connection IDs and the
      packet number. */
  lemma PacketSize(keys: DirectionalKeys, level: Level, version: U32, dst: Data, src: Data,
                   frames: seq<Frames.Frame>, pn: nat, pnLen: nat, established: bool)
    requires Sized(keys) && 1 <= pnLen <= 4
    requires SealPacket(keys, level, version, dst, src, frames, pn, pnLen, established).Ok?
    ensures |SealPacket(keys, level, version, dst, src, frames, pn, pnLen, established).value|
         == SizeOf(level, level != APPDATA || !established, |dst|, |src|,
                   |Frames.ListWire(frames, [])|, pnLen)
  {
    hide SealLong, SealShort, Frames.ListWire, AllWritable, PaddedPayload, PayloadSize;
    var wire := Frames.ListWire(frames, []);
    var payload := PaddedPayload(keys, level, dst, src, wire, pnLen);
    PayloadSizeIs(keys, level, dst, src, wire, pnLen);
    if level != APPDATA || !established {
      LongSize(keys, level, version, dst, src, payload, pn, pnLen);
    } else {
      ShortSize(keys, dst, payload, pn, pnLen);
    }
  }

  /** Every Initial is at least 1200 bytes (section 14.1 of RFC 9000). When padding was needed
      it is 1200 bytes and the packet number, plus one if the Length field grew with it: the
      estimate uses the unpadded length and forgets the packet number. */
  lemma InitialSize(keys: DirectionalKeys, version: U32, dst: Data, src: Data,
                    frames: seq<Frames.Frame>, pn: nat, pnLen: nat, established: bool)
    requires Sized(keys) && 1 <= pnLen <= 4 && |dst| <= MAX_CID_LEN && |src| <= MAX_CID_LEN
    requires SealPacket(keys, INITIAL, version, dst, src, frames, pn, pnLen, established).Ok?
    ensures var size := |SealPacket(keys, INITIAL, version, dst, src, frames, pn, pnLen, established).value|;
            var wire := |Frames.ListWire(frames, [])|;
            && size >= MIN_INITIAL_SIZE
            && (wire < InitialPayload(|dst|, |src|, wire, pnLen, 16) ==>
                  size == 1200 + pnLen + (if wire + pnLen + 16 <= 63 then 1 else 0))
  {
    hide SealLong, Frames.ListWire, AllWritable;
    var wire := Frames.ListWire(frames, []);
    var payload := PaddedPayload(keys, INITIAL, dst, src, wire, pnLen);
    LongSize(keys, INITIAL, version, dst, src, payload, pn, pnLen);
    PaddedLength(keys, dst, src, wire, pnLen);
  }

  lemma PaddedLength(keys: DirectionalKeys, dst: Data, src: Data, wire: Data, pnLen: nat)
    requires keys.tagLen == 16 && keys.sampleLen == 16 && 1 <= pnLen <= 4
    requires |dst| <= MAX_CID_LEN && |src| <= MAX_CID_LEN
    ensures var n := InitialPayload(|dst|, |src|, |wire|, pnLen, 16);
            && n >= 1100
            && |PaddedPayload(keys, INITIAL, dst, src, wire, pnLen)| == (if |wire| < n then n else |wire|)
            && PaddedPayload(keys, INITIAL, dst, src, wire, pnLen) == PadData(wire, n)
  {
    var n := InitialPayload(|dst|, |src|, |wire|, pnLen, 16);
    assert PadData(wire, n) + Zeros(0) == PadData(wire, n);
  }

  /** `build_initial_packet` makes the packet `egest` would make of the same ClientHello. */
  lemma FirstInitialIsSealed(keys: DirectionalKeys, dst: Data, src: Data, hello: Data)
    requires Sized(keys) && |dst| <= MAX_CID_LEN && |src| <= MAX_CID_LEN
    ensures FirstInitial(keys, dst, src, hello)
         == SealPacket(keys, INITIAL, VERSION_1, dst, src, [ClientHelloFrame(hello)], 0, 1, false)
  {
    hide SealLong, PaddedPayload, InitialPayload, PadData, Frames.WireTo, Frames.Writable;
    var f := ClientHelloFrame(hello);
    assert Frames.ListWire([f], []) == Frames.Wire(f);
    PaddedLength(keys, dst, src, Frames.Wire(f), 1);
  }

  /** The builder of `handshake.rs` refuses exactly the payloads whose Length needs more than
      the two bytes it reserved; otherwise it makes an ordinary Initial with packet number 0,
      of exactly 1200 bytes when it pads. */
  lemma ReservedInitialShape(keys: DirectionalKeys, dst: Data, src: Data, hello: Data)
    requires Sized(keys) && |dst| <= MAX_CID_LEN && |src| <= MAX_CID_LEN
    requires Frames.Writable(ClientHelloFrame(hello))
    ensures var wire := Frames.Wire(ClientHelloFrame(hello));
            var least := 1200 - (7 + |dst| + |src| + 1 + 2 + 1 + 16);
            var r := ReservedInitial(keys, dst, src, hello);
            && (|wire| > 16383 - 17 ==> r == Err(Transport(INTERNAL_ERROR)))
            && (|wire| <= 16383 - 17 ==>
                  r == SealLong(keys, INITIAL, VERSION_1, dst, src, PadData(wire, least), 0, 1))
            && (r.Ok? && |wire| <= least ==> |r.value| == MIN_INITIAL_SIZE)
            && (r.Ok? ==> |r.value| >= MIN_INITIAL_SIZE)
  {
    hide SealLong, Frames.WireTo, Frames.Writable;
    var wire := Frames.Wire(ClientHelloFrame(hello));
    var least := 1200 - (7 + |dst| + |src| + 1 + 2 + 1 + 16);
    if ReservedInitial(keys, dst, src, hello).Ok? {
      LongSize(keys, INITIAL, VERSION_1, dst, src, PadData(wire, least), 0, 1);
    }
  }
}
