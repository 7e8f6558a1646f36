/** Packet headers and packet numbers (sections 17 and A.3 of RFC 9000). */
module Packets {
  import opened Wrappers
  import opened Bytes
  import VarInt

  const MAX_CID_LEN: nat := 20
  const VERSION_1: U32 := 1

  type U32 = v: nat | v < 0x1_0000_0000

  datatype PacketError =
    | BufferTooShort
    | InvalidHeaderForm
    | FixedBitNotSet
    | ReservedBitsSet
    | InvalidCidLength(length: nat)
    | BadConnectionId(length: nat)
    | BadVarInt(cause: VarInt.VarIntError)

  datatype LongType = Initial | ZeroRtt | Handshake | Retry | VersionNegotiation

  datatype LongHeader = LongHeader(
    ty: LongType,
    version: U32,
    dstCid: Data,
    srcCid: Data,
    token: Option<Data>,
    length: Option<nat>,
    truncatedPn: Option<nat>,
    pnLen: Option<nat>)

  datatype ShortHeader = ShortHeader(
    spin: bool,
    keyPhase: bool,
    dstCid: Data,
    truncatedPn: nat,
    pnLen: nat)

  function FromBits(bits: nat): LongType
    requires bits < 4
  {
    if bits == 0 then Initial
    else if bits == 1 then ZeroRtt
    else if bits == 2 then Handshake
    else Retry
  }

  function ToBits(ty: LongType): (bits: nat)
    ensures bits < 4
    ensures !ty.VersionNegotiation? ==> FromBits(bits) == ty
  {
    match ty
    case Initial => 0
    case ZeroRtt => 1
    case Handshake => 2
    case Retry => 3
    case VersionNegotiation => 0
  }

  // ------------------------------------------------------------ packet numbers

  /** The number held by one to four big-endian bytes. */
  function ReadPn(s: Data): (pn: nat)
    ensures 1 <= |s| <= 4 ==> pn == Value(s) && pn < Pow256(|s|)
  {
    ReadPnIsValue(s);
    ValueBound(s);
    if |s| == 1 then s[0]
    else if |s| == 2 then Be2(s[0], s[1])
    else if |s| == 3 then Be4(0, s[0], s[1], s[2])
    else if |s| == 4 then Be4(s[0], s[1], s[2], s[3])
    else 0
  }

  lemma ReadPnIsValue(s: Data)
    ensures |s| == 1 ==> Value(s) == s[0]
    ensures |s| == 2 ==> Value(s) == Be2(s[0], s[1])
    ensures |s| == 3 ==> Value(s) == Be4(0, s[0], s[1], s[2])
    ensures |s| == 4 ==> Value(s) == Be4(s[0], s[1], s[2], s[3])
  {
    for i := 0 to |s|
      invariant i >= 1 ==> Value(s[..1]) == s[0]
      invariant i >= 2 ==> Value(s[..2]) == Be2(s[0], s[1])
      invariant i >= 3 ==> Value(s[..3]) == Be4(0, s[0], s[1], s[2])
      invariant i >= 4 ==> Value(s[..4]) == Be4(s[0], s[1], s[2], s[3])
    {
      VarInt.ValueStep(s, i);
    }
    assert s[..|s|] == s;
  }

  /** Truncation: reading back the low `n` bytes of a packet number. */
  lemma ReadTruncated(pn: nat, n: nat)
    requires 1 <= n <= 4
    ensures ReadPn(BigEndian(pn, n)) == Mod(pn, Pow256(n))
  {
    ValueOfBigEndian(pn, n);
  }

  /** The full packet number recovered from a truncated one. */
  function DecodePacketNumber(largestKnown: nat, truncated: nat, pnLen: nat): nat
    requires truncated < Pow256(pnLen)
  {
    var expected := largestKnown + 1;
    var win := Pow256(pnLen);
    var half := win / 2;
    var candidate := Floor(expected, win) + truncated;
    if candidate + half <= expected then candidate + win
    else if candidate > expected + half && candidate > win then candidate - win
    else candidate
  }

  /** The sample decoding algorithm of appendix A.3 of RFC 9000. */
  function SampleDecode(largestPn: nat, truncated: nat, pnLen: nat): nat
    requires truncated < Pow256(pnLen)
  {
    var expected := largestPn + 1;
    var win := Pow256(pnLen);
    var hwin := win / 2;
    var candidate := Floor(expected, win) + truncated;
    if candidate <= expected - hwin && candidate < 0x4000_0000_0000_0000 - win then candidate + win
    else if candidate > expected + hwin && candidate >= win then candidate - win
    else candidate
  }

  // ------------------------------------------------------------ reading headers

  function TakeFixed(s: Data, n: nat): (r: Result<(Data, Data), PacketError>)
    ensures r.Ok? ==> |r.value.0| == n && |r.value.1| == |s| - n
  {
    if |s| < n then Err(BufferTooShort) else Ok((s[..n], s[n..]))
  }

  function TakeVarint(s: Data): (r: Result<(nat, Data), PacketError>)
    ensures r.Ok? ==> |r.value.1| < |s| && r.value.0 <= VarInt.VARINT_MAX
  {
    match VarInt.Decode(s)
    case Err(e) => Err(BadVarInt(e))
    case Ok((v, n)) =>
      VarInt.ShortestForm(s);
      VarInt.DecodeMeaning(s);
      Ok((v, s[n..]))
  }

  /** A connection ID: a length byte of at most 20, then that many bytes. */
  function TakeCid(s: Data): (r: Result<(Data, Data), PacketError>)
    ensures r.Ok? ==> |r.value.0| <= MAX_CID_LEN && |r.value.1| == |s| - |r.value.0| - 1
  {
    if s == [] then Err(BufferTooShort)
    else if s[0] > MAX_CID_LEN then Err(InvalidCidLength(s[0]))
    else TakeFixed(s[1..], s[0])
  }

  /** A connection ID in a Version Negotiation packet, with `after` bytes still to come. Its
      length byte is unrestricted, but more than 20 bytes are no connection ID. */
  function TakeAnyCid(s: Data, after: nat): (r: Result<(Data, Data), PacketError>)
    ensures r.Ok? ==> |r.value.0| <= MAX_CID_LEN && |r.value.1| == |s| - |r.value.0| - 1
  {
    if s == [] || |s| < 1 + s[0] + after then Err(BufferTooShort)
    else if s[0] > MAX_CID_LEN then Err(BadConnectionId(s[0]))
    else TakeFixed(s[1..], s[0])
  }

  function VersionNegotiationAt(s: Data): (r: Result<(LongHeader, Data), PacketError>)
  {
    var (dst, s1) :- TakeAnyCid(s, 1);
    var (src, s2) :- TakeAnyCid(s1, 0);
    Ok((LongHeader(VersionNegotiation, 0, dst, src, None, None, None, None), s2))
  }

  /** Length, then packet number: the end of every header but Retry's. */
  function NumberAt(h: LongHeader, pnLen: nat, s: Data): (r: Result<(LongHeader, Data), PacketError>)
  {
    var (length, s1) :- TakeVarint(s);
    var (pn, s2) :- TakeFixed(s1, pnLen);
    Ok((h.(length := Some(length), truncatedPn := Some(ReadPn(pn)), pnLen := Some(pnLen)), s2))
  }

  function TypedAt(ty: LongType, version: U32, pnLen: nat, s: Data)
    : (r: Result<(LongHeader, Data), PacketError>)
  {
    var (dst, s1) :- TakeCid(s);
    var (src, s2) :- TakeCid(s1);
    var h := LongHeader(ty, version, dst, src, None, None, None, None);
    if ty == Retry then Ok((h, s2))
    else if ty == Initial then
      var (tokenLen, s3) :- TakeVarint(s2);
      var (token, s4) :- TakeFixed(s3, tokenLen);
      NumberAt(h.(token := Some(token)), pnLen, s4)
    else NumberAt(h, pnLen, s2)
  }

  /** The long header at the front of `s` and what follows its packet number. */
  function LongHeaderAt(s: Data): (r: Result<(LongHeader, Data), PacketError>)
  {
    if s == [] then Err(BufferTooShort)
    else if s[0] < 0x80 then Err(InvalidHeaderForm)
    else if |s| < 5 then Err(BufferTooShort)
    else
      var version := Be4(s[1], s[2], s[3], s[4]);
      if version == 0 then VersionNegotiationAt(s[5..])
      else if s[0] / 64 % 2 == 0 then Err(FixedBitNotSet)
      else TypedAt(FromBits(s[0] / 16 % 4), version, s[0] % 4 + 1, s[5..])
  }

  /** The short header at the front of `s`; the connection ID's length is known beforehand. */
  function ShortHeaderAt(s: Data, cidLen: nat): (r: Result<(ShortHeader, Data), PacketError>)
  {
    if s == [] then Err(BufferTooShort)
    else
      var first := s[0];
      if first >= 0x80 then Err(InvalidHeaderForm)
      else if first / 64 % 2 == 0 then Err(FixedBitNotSet)
      else if first / 8 % 4 != 0 then Err(ReservedBitsSet)
      else if first % 4 == 0 then Err(ReservedBitsSet)
      else
        var (cid, s1) :- TakeFixed(s[1..], cidLen);
        if cidLen > MAX_CID_LEN then Err(BadConnectionId(cidLen))
        else
          var (pn, s2) :- TakeFixed(s1, first % 4);
          Ok((ShortHeader(first / 32 % 2 == 1, first / 4 % 2 == 1, cid, ReadPn(pn), first % 4), s2))
  }

  // ------------------------------------------------------------ writing headers

  /** A packet-number length that a header can announce. */
  predicate PnLenOk(pnLen: Option<nat>)
  {
    pnLen.Some? ==> 1 <= pnLen.value <= 4
  }

  /** A packet-number length that the writer takes: any byte but zero. */
  predicate PnLenByte(pnLen: Option<nat>)
  {
    pnLen.Some? ==> 1 <= pnLen.value <= 255
  }

  /** Lengths above four spill over the other fields. */
  function LongFirst(h: LongHeader): (b: Byte)
    requires PnLenByte(h.pnLen)
  {
    var fields := 0xc0 + 16 * ToBits(h.ty);
    var low := if h.pnLen.Some? then h.pnLen.value - 1 else 0;
    if low < 4 then fields + low else OrByte(fields, low)
  }

  function CidWire(cid: Data, t: Data): Data
  {
    [|cid| % 256] + (cid + t)
  }

  function TokenWire(token: Option<Data>, t: Data): Data
  {
    if token.Some? then VarInt.Enc(|token.value|) + (token.value + t) else t
  }

  function LengthWire(length: Option<nat>, t: Data): Data
  {
    if length.Some? then VarInt.Enc(length.value) + t else t
  }

  /** A header between its first byte and its packet number, then `t`. */
  function LongMiddle(h: LongHeader, t: Data): Data
  {
    BigEndian(h.version, 4)
    + CidWire(h.dstCid, CidWire(h.srcCid, TokenWire(h.token, LengthWire(h.length, t))))
  }

  /** The bytes `write_long_header` writes: zeros stand for the packet number. */
  function LongWire(h: LongHeader): Data
    requires PnLenByte(h.pnLen)
  {
    [LongFirst(h)] + LongMiddle(h, Zeros(if h.pnLen.Some? then h.pnLen.value else 0))
  }

  /** Length 4 shares a bit with the key phase; higher lengths spill over more fields. */
  function ShortFirst(h: ShortHeader): (b: Byte)
    requires h.pnLen <= 255
  {
    var fields := 0x40 + (if h.spin then 0x20 else 0);
    if h.pnLen <= 4
    then fields + (if h.keyPhase || h.pnLen == 4 then 0x04 else 0) + h.pnLen % 4
    else OrByte(fields + (if h.keyPhase then 0x04 else 0), h.pnLen)
  }

  function ShortWire(h: ShortHeader): Data
    requires h.pnLen <= 255
  {
    [ShortFirst(h)] + (h.dstCid + Zeros(h.pnLen))
  }
}
