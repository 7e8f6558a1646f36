/** The header parsers and writers of `packet.rs`, proved against the layouts of `Packets`. */
module PacketCodec {
  import opened Wrappers
  import opened Bytes
  import opened Packets
  import VarInt
  import PacketLaws

  lemma DropDrop(s: Data, a: nat, b: nat)
    requires a + b <= |s|
    ensures s[a..][b..] == s[a + b..]
    ensures s[a..][..b] == s[a..a + b]
  {
  }

  /** A connection ID at `buf[at..]`, and the position after it. */
  method ReadCid(buf: Data, at: nat) returns (r: Result<(Data, nat), PacketError>)
    requires at <= |buf|
    ensures match TakeCid(buf[at..])
            case Ok((cid, rest)) =>
              r == Ok((cid, |buf| - |rest|)) && at < |buf| - |rest| <= |buf|
              && rest == buf[|buf| - |rest|..]
            case Err(e) => r == Err(e)
  {
    if |buf| < at + 1 {
      return Err(BufferTooShort);
    }
    var len: nat := buf[at];
    if len > MAX_CID_LEN {
      return Err(InvalidCidLength(len));
    }
    DropDrop(buf, at, 1);
    if |buf| < at + 1 + len {
      return Err(BufferTooShort);
    }
    DropDrop(buf, at + 1, len);
    return Ok((buf[at + 1..at + 1 + len], at + 1 + len));
  }

  /** A varint at `buf[at..]`, and the position after it. */
  method ReadVarint(buf: Data, at: nat) returns (r: Result<(nat, nat), PacketError>)
    requires at <= |buf|
    ensures match TakeVarint(buf[at..])
            case Ok((v, rest)) =>
              r == Ok((v, |buf| - |rest|)) && at < |buf| - |rest| <= |buf|
              && rest == buf[|buf| - |rest|..]
            case Err(e) => r == Err(e)
  {
    match VarInt.Decode(buf[at..])
    case Err(e) =>
      return Err(BadVarInt(e));
    case Ok((v, n)) =>
      VarInt.ShortestForm(buf[at..]);
      DropDrop(buf, at, n);
      return Ok((v, at + n));
  }

  method ReadVersionNegotiation(buf: Data) returns (r: Result<(LongHeader, nat), PacketError>)
    requires |buf| >= 5
    ensures match VersionNegotiationAt(buf[5..])
            case Ok((h, rest)) => r == Ok((h, |buf| - |rest|))
            case Err(e) => r == Err(e)
  {
    if |buf| < 6 {
      return Err(BufferTooShort);
    }
    var dstLen: nat := buf[5];
    DropDrop(buf, 5, 1);
    if |buf| < 6 + dstLen + 1 {
      return Err(BufferTooShort);
    }
    DropDrop(buf, 6, dstLen);
    if dstLen > MAX_CID_LEN {
      return Err(BadConnectionId(dstLen));
    }
    var dst := buf[6..6 + dstLen];
    var srcStart := 6 + dstLen;
    var srcLen: nat := buf[srcStart];
    var dataStart := srcStart + 1;
    DropDrop(buf, srcStart, 1);
    if |buf| < dataStart + srcLen {
      return Err(BufferTooShort);
    }
    DropDrop(buf, dataStart, srcLen);
    if srcLen > MAX_CID_LEN {
      return Err(BadConnectionId(srcLen));
    }
    var src := buf[dataStart..dataStart + srcLen];
    return Ok((LongHeader(VersionNegotiation, 0, dst, src, None, None, None, None),
               dataStart + srcLen));
  }

  /** Length and packet number at `buf[at..]`: the end of a header that has them. */
  method ReadNumber(h: LongHeader, pnLen: nat, buf: Data, at: nat)
    returns (r: Result<(LongHeader, nat), PacketError>)
    requires at <= |buf|
    ensures match NumberAt(h, pnLen, buf[at..])
            case Ok((got, rest)) => r == Ok((got, |buf| - |rest|))
            case Err(e) => r == Err(e)
  {
    hide TakeVarint, ReadPn;
    var length :- ReadVarint(buf, at);
    var pos := length.1;
    if |buf| < pos + pnLen {
      return Err(BufferTooShort);
    }
    DropDrop(buf, pos, pnLen);
    var truncated := ReadPn(buf[pos..pos + pnLen]);
    return Ok((h.(length := Some(length.0), truncatedPn := Some(truncated), pnLen := Some(pnLen)),
               pos + pnLen));
  }

  /** What follows the version of a header whose type is known. */
  method ReadTyped(ty: LongType, version: U32, pnLen: nat, buf: Data)
    returns (r: Result<(LongHeader, nat), PacketError>)
    requires |buf| >= 5
    ensures match TypedAt(ty, version, pnLen, buf[5..])
            case Ok((got, rest)) => r == Ok((got, |buf| - |rest|))
            case Err(e) => r == Err(e)
  {
    hide TakeVarint, TakeCid, NumberAt;
    var dst :- ReadCid(buf, 5);
    var src :- ReadCid(buf, dst.1);
    var pos := src.1;
    var h := LongHeader(ty, version, dst.0, src.0, None, None, None, None);
    if ty == Initial {
      var tokenLen :- ReadVarint(buf, pos);
      pos := tokenLen.1;
      if |buf| < pos + tokenLen.0 {
        return Err(BufferTooShort);
      }
      DropDrop(buf, pos, tokenLen.0);
      h := h.(token := Some(buf[pos..pos + tokenLen.0]));
      pos := pos + tokenLen.0;
    }
    if ty == Retry {
      return Ok((h, pos));
    }
    r := ReadNumber(h, pnLen, buf, pos);
  }

  /** Parses a long header; returns it and the bytes up to the end of its packet number. */
  method ParseLongHeader(buf: Data) returns (r: Result<(LongHeader, nat), PacketError>)
    ensures match LongHeaderAt(buf)
            case Ok((h, rest)) => r == Ok((h, |buf| - |rest|))
            case Err(e) => r == Err(e)
  {
    hide TypedAt, VersionNegotiationAt;
    if |buf| < 1 {
      return Err(BufferTooShort);
    }
    var first := buf[0];
    if first < 0x80 {
      return Err(InvalidHeaderForm);
    }
    if |buf| < 5 {
      return Err(BufferTooShort);
    }
    var version: U32 := Be4(buf[1], buf[2], buf[3], buf[4]);
    if version == 0 {
      r := ReadVersionNegotiation(buf);
      return;
    }
    var ty := FromBits(first / 16 % 4);
    if first / 64 % 2 == 0 {
      return Err(FixedBitNotSet);
    }
    r := ReadTyped(ty, version, first % 4 + 1, buf);
  }

  /** Parses a short header whose connection ID is `cidLen` bytes long. */
  method ParseShortHeader(buf: Data, cidLen: nat) returns (r: Result<(ShortHeader, nat), PacketError>)
    ensures match ShortHeaderAt(buf, cidLen)
            case Ok((h, rest)) => r == Ok((h, |buf| - |rest|))
            case Err(e) => r == Err(e)
  {
    hide ReadPn;
    if |buf| < 1 {
      return Err(BufferTooShort);
    }
    var first := buf[0];
    if first >= 0x80 {
      return Err(InvalidHeaderForm);
    }
    if first / 64 % 2 == 0 {
      return Err(FixedBitNotSet);
    }
    var spin := first / 32 % 2 == 1;
    if first / 8 % 4 != 0 {
      return Err(ReservedBitsSet);
    }
    var keyPhase := first / 4 % 2 == 1;
    var pnLen: nat := first % 4;
    if pnLen == 0 {
      return Err(ReservedBitsSet);
    }
    if |buf| < 1 + cidLen {
      return Err(BufferTooShort);
    }
    DropDrop(buf, 1, cidLen);
    if cidLen > MAX_CID_LEN {
      return Err(BadConnectionId(cidLen));
    }
    var cid := buf[1..1 + cidLen];
    var pos := 1 + cidLen;
    if |buf| < pos + pnLen {
      return Err(BufferTooShort);
    }
    DropDrop(buf, pos, pnLen);
    var truncated := ReadPn(buf[pos..pos + pnLen]);
    pos := pos + pnLen;
    return Ok((ShortHeader(spin, keyPhase, cid, truncated, pnLen), pos));
  }

  /** Appends a long header with zeros for its packet number. */
  method WriteLongHeader(h: LongHeader, buf: Buffer) returns (r: Result<nat, PacketError>)
    requires PnLenByte(h.pnLen)
    modifies buf
    ensures r.Ok? <==> PacketLaws.Encodable(h)
    ensures r.Ok? ==> buf.bytes == old(buf.bytes) + LongWire(h) && r.value == |LongWire(h)|
  {
    hide BigEndian, VarInt.Encoding, LongFirst, Zeros;
    var start := |buf.bytes|;
    var pn := Zeros(if h.pnLen.Some? then h.pnLen.value else 0);
    ghost var goal := buf.bytes + LongWire(h);
    ghost var s3 := LengthWire(h.length, pn);
    ghost var s2 := TokenWire(h.token, s3);
    ghost var s1 := CidWire(h.srcCid, s2);
    PutToward(buf, [LongFirst(h)], LongMiddle(h, pn), goal);
    PutToward(buf, BigEndian(h.version, 4), CidWire(h.dstCid, s1), goal);
    PutToward(buf, [|h.dstCid| % 256], h.dstCid + s1, goal);
    PutToward(buf, h.dstCid, s1, goal);
    PutToward(buf, [|h.srcCid| % 256], h.srcCid + s2, goal);
    PutToward(buf, h.srcCid, s2, goal);
    if h.token.Some? {
      var put := PutVarint(buf, |h.token.value|, h.token.value + s3, goal);
      if put.Fail? {
        return Err(put.error);
      }
      PutToward(buf, h.token.value, s3, goal);
    }
    if h.length.Some? {
      var put := PutVarint(buf, h.length.value, pn, goal);
      if put.Fail? {
        return Err(put.error);
      }
    }
    buf.PutSlice(pn);
    return Ok(|buf.bytes| - start);
  }

  method PutVarint(buf: Buffer, v: nat, ghost tail: Data, ghost goal: Data)
    returns (r: Outcome<PacketError>)
    requires buf.bytes + (VarInt.Enc(v) + tail) == goal
    modifies buf
    ensures r.Pass? <==> v <= VarInt.VARINT_MAX
    ensures r.Pass? ==> buf.bytes + tail == goal
  {
    var put := VarInt.PutVarint(buf, v);
    assert old(buf.bytes) + (VarInt.Enc(v) + tail) == old(buf.bytes) + VarInt.Enc(v) + tail;
    return match put case Ok(_) => Pass case Err(e) => Fail(BadVarInt(e));
  }

  /** Appends a short header with zeros for its packet number. */
  method WriteShortHeader(h: ShortHeader, buf: Buffer) returns (written: nat)
    requires h.pnLen <= 255
    modifies buf
    ensures buf.bytes == old(buf.bytes) + ShortWire(h) && written == |ShortWire(h)|
  {
    var start := |buf.bytes|;
    buf.PutU8(ShortFirst(h));
    buf.PutSlice(h.dstCid);
    buf.PutSlice(Zeros(h.pnLen));
    return |buf.bytes| - start;
  }

  /** Writes the low `len` bytes of a packet number at `buf[at..]`; other lengths than one to four
      write nothing. */
  method WritePn(buf: array<Byte>, at: nat, pn: nat, len: nat)
    requires 1 <= len <= 4 ==> at + len <= buf.Length
    modifies buf
    ensures 1 <= len <= 4 ==>
              buf[..] == old(buf[..at]) + BigEndian(pn, len) + old(buf[at + len..])
    ensures !(1 <= len <= 4) ==> buf[..] == old(buf[..])
  {
    BigEndianBytes(pn);
    match len
    case 1 => Store(buf, at, [ByteAt(pn, 0)]);
    case 2 => Store(buf, at, [ByteAt(pn, 1), ByteAt(pn, 0)]);
    case 3 => Store(buf, at, [ByteAt(pn, 2), ByteAt(pn, 1), ByteAt(pn, 0)]);
    case 4 => Store(buf, at, [ByteAt(pn, 3), ByteAt(pn, 2), ByteAt(pn, 1), ByteAt(pn, 0)]);
    case _ =>
  }

  /** Shifting and truncating gives the big-endian bytes. */
  lemma BigEndianBytes(v: nat)
    ensures BigEndian(v, 1) == [ByteAt(v, 0)]
    ensures BigEndian(v, 2) == [ByteAt(v, 1), ByteAt(v, 0)]
    ensures BigEndian(v, 3) == [ByteAt(v, 2), ByteAt(v, 1), ByteAt(v, 0)]
    ensures BigEndian(v, 4) == [ByteAt(v, 3), ByteAt(v, 2), ByteAt(v, 1), ByteAt(v, 0)]
  {
    assert BigEndian(v, 0) == [];
    hide BigEndian, ByteAt;
    ByteStep(v, 0);
    ByteStep(v, 1);
    ByteStep(v, 2);
    ByteStep(v, 3);
  }

  lemma {:induction false} ByteStep(v: nat, k: nat)
    ensures BigEndian(v, k + 1) == [ByteAt(v, k)] + BigEndian(v, k)
  {
    if k > 0 {
      ByteStep(v / 256, k - 1);
    }
  }
}
