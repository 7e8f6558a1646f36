/**
 The packet builders and openers of `connection.rs` and `handshake.rs`, which fill header and
 payload buffers in place, proved against the packets of `Protection`.
 */
module Sealing {
  import opened Wrappers
  import opened Bytes
  import opened Packets
  import opened Protection
  import Frames
  import FrameCodec
  import PacketCodec
  import VarInt

  /** Copies `s` over the bytes behind the first `at`; what lies before is what it was. */
  method Fill(header: array<Byte>, at: nat, s: Data, ghost done: Data)
    requires at + |s| <= header.Length && |done| == at && header[..at] == done
    modifies header
    ensures header[..at + |s|] == done + s
  {
    Store(header, at, s);
  }

  method FillVarint(header: array<Byte>, at: nat, v: nat, ghost done: Data) returns (ok: bool)
    requires at + VarInt.EncodedLen(v) <= header.Length && |done| == at && header[..at] == done
    modifies header
    ensures ok <==> v <= VarInt.VARINT_MAX
    ensures ok ==> header[..at + VarInt.EncodedLen(v)] == done + VarInt.Enc(v)
    ensures !ok ==> header[..] == old(header[..])
  {
    var r := VarInt.Encode(v, header, at);
    return r.Ok?;
  }

  /** The fields from the version to the source connection ID. */
  method FillPrefix(header: array<Byte>, first: Byte, version: U32, dst: Data, src: Data)
    returns (pos: nat)
    requires header.Length >= 7 + |dst| + |src|
    modifies header
    ensures pos == 7 + |dst| + |src|
    ensures header[..pos] == [first] + (BigEndian(version, 4) + CidWire(dst, CidWire(src, [])))
  {
    hide BigEndian;
    header[0] := first;
    ghost var done := [first];
    Fill(header, 1, BigEndian(version, 4), done);
    done := done + BigEndian(version, 4);
    Fill(header, 5, [|dst| % 256], done);
    done := done + [|dst| % 256];
    Fill(header, 6, dst, done);
    done := done + dst;
    var srcPos := 6 + |dst|;
    Fill(header, srcPos, [|src| % 256], done);
    done := done + [|src| % 256];
    Fill(header, srcPos + 1, src, done);
    assert done + src == [first] + (BigEndian(version, 4) + CidWire(dst, CidWire(src, [])));
    return srcPos + 1 + |src|;
  }

  /** Completes a header with its packet number. */
  method FillPn(header: array<Byte>, at: nat, pn: nat, len: nat, ghost first: Byte, ghost middle: Data)
    requires 1 <= len <= 4 && at == 1 + |middle| && header.Length == at + len
    requires header[..at] == [first] + middle
    modifies header
    ensures header[..] == [first] + (middle + BigEndian(pn, len))
  {
    hide BigEndian;
    PacketCodec.WritePn(header, at, pn, len);
    assert [first] + middle + BigEndian(pn, len) == [first] + (middle + BigEndian(pn, len));
  }

  /** Masks the first byte and the packet number of a header in place. */
  method MaskHeader(header: array<Byte>, pnOffset: nat, mask: Mask,
                    ghost first: Byte, ghost middle: Data, ghost pnBytes: Data)
    requires 1 <= |pnBytes| <= 4 && pnOffset == 1 + |middle|
    requires header[..] == [first] + (middle + pnBytes)
    modifies header
    ensures header[..] == [Xor(first, FirstMask(first, mask))]
                          + (middle + MaskPn(pnBytes, mask, first % 4 + 1))
  {
    hide Xor, FirstMask, MaskPn;
    var firstByte := header[0];
    var pn := header[pnOffset..];
    assert pn == pnBytes && firstByte == first;
    var masked := MaskPn(pn, mask, firstByte % 4 + 1);
    firstByte := Xor(firstByte, FirstMask(firstByte, mask));
    header[0] := firstByte;
    assert header[..pnOffset] == [firstByte] + middle;
    Store(header, pnOffset, masked);
    assert [firstByte] + middle + masked == [firstByte] + (middle + masked);
  }

  /** The AEAD and header-protection steps that end every builder. */
  method SealInPlace(keys: DirectionalKeys, header: array<Byte>, pnOffset: nat, pnLen: nat,
                     pn: nat, payload: Data, ghost first: Byte, ghost middle: Data)
    returns (r: Result<Data, ConnectionError>)
    requires 1 <= pnLen <= 4 && pnOffset == 1 + |middle|
    requires header[..] == [first] + (middle + BigEndian(pn, pnLen))
    modifies header
    ensures r == SealWith(keys, first, middle, BigEndian(pn, pnLen), pn, payload)
  {
    hide Xor, FirstMask, MaskPn, BigEndian;
    var sealedOrNone := keys.seal(pn, header[..], payload);
    if sealedOrNone.None? {
      return Err(Transport(INTERNAL_ERROR));
    }
    var sealed := sealedOrNone.value;
    var sampleStart := 4 - pnLen;
    if |sealed| < sampleStart + keys.sampleLen {
      return Err(Transport(INTERNAL_ERROR));
    }
    assert sealed[sampleStart..][..keys.sampleLen] == sealed[sampleStart..sampleStart + keys.sampleLen];
    var mask := keys.mask(sealed[sampleStart..sampleStart + keys.sampleLen]);
    MaskHeader(header, pnOffset, mask, first, middle, BigEndian(pn, pnLen));
    var packet := header[..] + sealed;
    ghost var f, masked := header[..][0], MaskPn(BigEndian(pn, pnLen), mask, first % 4 + 1);
    assert packet == [f] + (middle + (masked + sealed));
    return Ok(packet);
  }

  /** The fields of a long header in the order they are filled in. */
  function Prefix(h: LongHeader): Data
    requires PnLenOk(h.pnLen)
  {
    [LongFirst(h)] + (BigEndian(h.version, 4) + CidWire(h.dstCid, CidWire(h.srcCid, [])))
  }

  lemma FilledHeader(h: LongHeader)
    requires PnLenOk(h.pnLen) && h.length.Some?
    requires h.token == None || h.token == Some([])
    ensures Prefix(h) + (if h.token.Some? then VarInt.Enc(0) else []) + VarInt.Enc(h.length.value)
         == [LongFirst(h)] + LongMiddle(h, [])
  {
    hide BigEndian, VarInt.Encoding, LongFirst, VarInt.Enc;
    var middle := (if h.token.Some? then VarInt.Enc(0) else []) + VarInt.Enc(h.length.value);
    assert TokenWire(h.token, LengthWire(h.length, [])) == middle;
    assert CidWire(h.dstCid, CidWire(h.srcCid, middle)) == CidWire(h.dstCid, CidWire(h.srcCid, [])) + middle;
  }

  method EncryptLong(keys: DirectionalKeys, level: Level, version: U32, dst: Data, src: Data,
                     payload: Data, pn: nat, pnLen: nat) returns (r: Result<Data, ConnectionError>)
    requires 1 <= pnLen <= 4
    ensures r == SealLong(keys, level, version, dst, src, payload, pn, pnLen)
  {
    hide SealWith, BigEndian, VarInt.Encoding, LongMiddle;
    var tokenLenSize := if level == INITIAL then VarInt.EncodedLen(0) else 0;
    var lengthValue := pnLen + |payload| + keys.tagLen;
    var pnOffset := 7 + |dst| + |src| + tokenLenSize + VarInt.EncodedLen(lengthValue);
    var header := new Byte[pnOffset + pnLen](_ => 0);
    ghost var h := HeaderFor(keys, level, version, dst, src, |payload|, pnLen);
    var typeBits := ToBits(TypeOfLevel(level));
    var pos := FillPrefix(header, 0xc0 + 16 * typeBits + (pnLen - 1), version, dst, src);
    ghost var done := Prefix(h);
    if level == INITIAL {
      var _ := FillVarint(header, pos, 0, done);
      done := done + VarInt.Enc(0);
      pos := pos + tokenLenSize;
    }
    var ok := FillVarint(header, pos, lengthValue, done);
    if !ok {
      return Err(Transport(INTERNAL_ERROR));
    }
    assert Prefix(h) + [] == Prefix(h);
    FilledHeader(h);
    FillPn(header, pnOffset, pn, pnLen, LongFirst(h), LongMiddle(h, []));
    r := SealInPlace(keys, header, pnOffset, pnLen, pn, payload, LongFirst(h), LongMiddle(h, []));
  }

  method EncryptShort(keys: DirectionalKeys, dst: Data, payload: Data, pn: nat, pnLen: nat,
                      keyPhase: bool) returns (r: Result<Data, ConnectionError>)
    requires 1 <= pnLen <= 4
    ensures r == SealShort(keys, dst, payload, pn, pnLen, keyPhase)
  {
    hide SealWith, BigEndian;
    var pnOffset := 1 + |dst|;
    var header := new Byte[pnOffset + pnLen](_ => 0);
    var pnLenEnc := if pnLen == 4 then 0 else pnLen;
    header[0] := 0x40 + (if keyPhase then 0x04 else 0) + pnLenEnc;
    ghost var first := header[0];
    Fill(header, 1, dst, [first]);
    FillPn(header, pnOffset, pn, pnLen, first, dst);
    r := SealInPlace(keys, header, pnOffset, pnLen, pn, payload, first, dst);
  }

  /** Serialises, pads and seals the frames of one packet. */
  method EncryptPacket(keys: Option<Keys>, level: Level, version: U32, dst: Data, src: Data,
                       frames: seq<Frames.Frame>, pn: nat, pnLen: nat, established: bool)
    returns (r: Result<Data, ConnectionError>)
    requires 1 <= pnLen <= 4
    requires forall f :: f in frames && f.Ack? ==> f.ranges != []
    ensures r == if keys.None? then Err(Transport(INTERNAL_ERROR))
                 else SealPacket(keys.value.local, level, version, dst, src, frames, pn, pnLen,
                                 established)
  {
    hide SealLong, SealShort, Frames.ListWire, Frames.Writable, InitialPayload;
    if keys.None? {
      return Err(Transport(INTERNAL_ERROR));
    }
    var local := keys.value.local;
    var isLong := level != APPDATA || !established;
    var buf := new Buffer();
    var put := FrameCodec.WriteFrames(frames, buf);
    if put.Fail? {
      return Err(BadFrame);
    }
    assert [] + Frames.ListWire(frames, []) == Frames.ListWire(frames, []);
    if level == INITIAL {
      var payloadNeeded := InitialPayload(|dst|, |src|, |buf.bytes|, pnLen, local.tagLen);
      buf.PadTo(payloadNeeded);
    }
    buf.PadTo(local.sampleLen + 4 - pnLen);
    assert buf.bytes == PaddedPayload(local, level, dst, src, Frames.ListWire(frames, []), pnLen);
    if isLong {
      r := EncryptLong(local, level, version, dst, src, buf.bytes, pn, pnLen);
    } else {
      r := EncryptShort(local, dst, buf.bytes, pn, pnLen, false);
    }
  }

  /** The client's first packet. */
  method BuildInitialPacket(keys: Keys, dst: Data, src: Data, hello: Data)
    returns (r: Result<Data, ConnectionError>)
    ensures r == FirstInitial(keys.local, dst, src, hello)
  {
    hide SealLong, Frames.WireTo, Frames.Writable, InitialPayload;
    var tagLen := keys.local.tagLen;
    var buf := new Buffer();
    var put := FrameCodec.WriteFrame(ClientHelloFrame(hello), buf);
    if put.Err? {
      return Err(BadFrame);
    }
    assert [] + Frames.Wire(ClientHelloFrame(hello)) == Frames.Wire(ClientHelloFrame(hello));
    var minPayload := InitialPayload(|dst|, |src|, |buf.bytes|, 1, tagLen);
    buf.PadTo(minPayload);
    r := EncryptLong(keys.local, INITIAL, VERSION_1, dst, src, buf.bytes, 0, 1);
  }

  /** The Initial of `handshake.rs`, with two bytes set aside for the Length field. */
  method BuildAndProtectInitial(keys: Keys, dst: Data, src: Data, hello: Data)
    returns (r: Result<Data, ConnectionError>)
    requires |dst| <= MAX_CID_LEN && |src| <= MAX_CID_LEN
    ensures r == ReservedInitial(keys.local, dst, src, hello)
  {
    hide SealLong, Frames.WireTo, Frames.Writable;
    var pnLen := 1;
    var tagLen := keys.local.tagLen;
    var buf := new Buffer();
    var put := FrameCodec.WriteFrame(ClientHelloFrame(hello), buf);
    if put.Err? {
      return Err(BadFrame);
    }
    assert buf.bytes == Frames.Wire(ClientHelloFrame(hello));
    var pnOffset := 7 + |dst| + |src| + 1 + 2;
    var plaintextMin := Sub(MIN_INITIAL_SIZE, pnOffset + pnLen + tagLen);
    buf.PadTo(plaintextMin);
    r := SealReserved(keys.local, dst, src, buf.bytes);
  }

  /** The header of `build_and_protect_initial`, laid out for a two-byte Length. */
  method SealReserved(keys: DirectionalKeys, dst: Data, src: Data, payload: Data)
    returns (r: Result<Data, ConnectionError>)
    requires 1 + |payload| + keys.tagLen > 63
    ensures r == if VarInt.EncodedLen(1 + |payload| + keys.tagLen) > 2
                 then Err(Transport(INTERNAL_ERROR))
                 else SealLong(keys, INITIAL, VERSION_1, dst, src, payload, 0, 1)
  {
    hide SealWith, BigEndian, VarInt.Encoding;
    var pnOffset := 7 + |dst| + |src| + 1 + 2;
    var lengthValue := 1 + |payload| + keys.tagLen;
    var header := new Byte[pnOffset + 1](_ => 0);
    ghost var h := HeaderFor(keys, INITIAL, VERSION_1, dst, src, |payload|, 1);
    var pos := FillPrefix(header, 0xc0, VERSION_1, dst, src);
    ghost var done := Prefix(h);
    var _ := FillVarint(header, pos, 0, done);
    done := done + VarInt.Enc(0);
    if header.Length - (pos + 1) < VarInt.EncodedLen(lengthValue) {
      return Err(Transport(INTERNAL_ERROR));
    }
    var _ := FillVarint(header, pos + 1, lengthValue, done);
    FilledHeader(h);
    FillPn(header, pnOffset, 0, 1, LongFirst(h), LongMiddle(h, []));
    r := SealInPlace(keys, header, pnOffset, 1, 0, payload, LongFirst(h), LongMiddle(h, []));
  }

  // ------------------------------------------------------------ opening

  /** Removes protection from a packet and parses its frames; `long` tells the two receive
      paths apart, which differ in how the packet-number length is announced. */
  method OpenInPlace(keys: DirectionalKeys, long: bool, largest: nat, packet: Data, pnOffset: nat)
    returns (r: Result<(nat, seq<Frames.Frame>), ConnectionError>)
    requires 1 <= pnOffset && HasSample(keys, packet, pnOffset)
    ensures r == Open(keys, long, largest, packet, pnOffset)
  {
    hide Xor, FirstMask, MaskPn, DecodePacketNumber, ReadPn, Frames.FramesOf;
    var sampleStart := pnOffset + 4;
    var sample := packet[sampleStart..sampleStart + keys.sampleLen];
    assert sample == packet[pnOffset + 4..][..keys.sampleLen];
    var mask := keys.mask(sample);
    var firstByte := Xor(packet[0], FirstMask(packet[0], mask));
    var pnBytes := MaskPn(packet[pnOffset..pnOffset + 4], mask, firstByte % 4 + 1);
    var pnLen := if long then firstByte % 4 + 1 else if firstByte % 4 == 0 then 4 else firstByte % 4;
    pnBytes := pnBytes[..pnLen];
    var fullPn := DecodePacketNumber(largest, ReadPn(pnBytes), pnLen);
    var aadLen := pnOffset + pnLen;
    var aad := packet[..aadLen];
    aad := aad[0 := firstByte];
    aad := aad[..pnOffset] + pnBytes;
    assert aad == [firstByte] + (packet[1..pnOffset] + pnBytes);
    var plaintext := keys.open(fullPn, aad, packet[aadLen..]);
    if plaintext.None? {
      return Err(Transport(PROTOCOL_VIOLATION));
    }
    var frames := FrameCodec.ReadFrames(plaintext.value);
    if frames.Err? {
      return Err(BadFrame);
    }
    return Ok((fullPn, frames.value));
  }

  method DecryptAndParseLong(keys: Option<Keys>, packet: Data, pnOffset: nat)
    returns (r: Result<(nat, seq<Frames.Frame>), ConnectionError>)
    requires 1 <= pnOffset
    ensures r == if keys.None? then Err(Transport(INTERNAL_ERROR))
                 else OpenLong(keys.value.remote, packet, pnOffset)
  {
    hide Open;
    if keys.None? {
      return Err(Transport(INTERNAL_ERROR));
    }
    var remote := keys.value.remote;
    if |packet| < pnOffset + 4 + remote.sampleLen {
      return Err(BadPacket);
    }
    r := OpenInPlace(remote, true, 0, packet, pnOffset);
  }

  /** The short path takes its sample without a length check. */
  method DecryptAndParse(keys: Option<Keys>, largest: nat, packet: Data, pnOffset: nat)
    returns (r: Result<(nat, seq<Frames.Frame>), ConnectionError>)
    requires 1 <= pnOffset
    requires keys.Some? ==> HasSample(keys.value.remote, packet, pnOffset)
    ensures r == if keys.None? then Err(Transport(INTERNAL_ERROR))
                 else Open(keys.value.remote, false, largest, packet, pnOffset)
  {
    if keys.None? {
      return Err(Transport(INTERNAL_ERROR));
    }
    r := OpenInPlace(keys.value.remote, false, largest, packet, pnOffset);
  }
}
