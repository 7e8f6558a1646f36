/**
 Packet protection (section 5 of RFC 9001) with the AEAD and the header-protection cipher as
 oracles, and the packets that `connection.rs` seals and opens with them.
 */
module Protection {
  import opened Wrappers
  import opened Bytes
  import opened Packets
  import Frames
  import VarInt

  const MIN_INITIAL_SIZE: nat := 1200

  /** The packet number spaces, which are also the indices of the CRYPTO streams. */
  type Level = l: nat | l < 3

  const INITIAL: Level := 0
  const HANDSHAKE: Level := 1
  const APPDATA: Level := 2

  /** Transport errors by their code (section 20.1 of RFC 9000). */
  const INTERNAL_ERROR: nat := 0x01
  const PROTOCOL_VIOLATION: nat := 0x0a

  datatype ConnectionError = Transport(code: nat) | TlsFailed | BadFrame | BadPacket | ClosedAlready

  type Mask = m: Data | |m| == 5 witness Zeros(5)

  /** One direction of a key pair. `seal` and `open` take packet number, associated data and
      text; `seal` returns ciphertext and tag. `mask` is the mask for a header sample. */
  datatype DirectionalKeys = DirectionalKeys(
    seal: (nat, Data, Data) -> Option<Data>,
    open: (nat, Data, Data) -> Option<Data>,
    mask: Data -> Mask,
    tagLen: nat,
    sampleLen: nat)

  datatype Keys = Keys(local: DirectionalKeys, remote: DirectionalKeys)

  /** What `sender` seals, `receiver` opens, and both derive the same masks. */
  ghost predicate Opens(sender: DirectionalKeys, receiver: DirectionalKeys)
  {
    && (forall pn, aad, text :: sender.seal(pn, aad, text).Some? ==>
          && |sender.seal(pn, aad, text).value| == |text| + sender.tagLen
          && receiver.open(pn, aad, sender.seal(pn, aad, text).value) == Some(text))
    && (forall sample :: receiver.mask(sample) == sender.mask(sample))
    && receiver.sampleLen == sender.sampleLen
  }

  // ------------------------------------------------------------ header protection

  /** Four low bits of a long header's first byte are masked, five of a short header's. */
  function FirstMask(first: Byte, mask: Mask): Byte
  {
    if first >= 0x80 then mask[0] % 16 else mask[0] % 32
  }

  /** Masks the first `n` packet-number bytes, and no more than there are. */
  function MaskPn(pn: Data, mask: Mask, n: nat): (r: Data)
    requires |pn| <= 4
    ensures |r| == |pn|
  {
    seq(|pn|, i requires 0 <= i < |pn| => if i < n then Xor(pn[i], mask[1 + i]) else pn[i])
  }

  /** The packet whose unprotected header is `[first] + middle + pn`. The sample starts four
      bytes after the packet number does, whatever the packet number's length. */
  function Protect(keys: DirectionalKeys, first: Byte, middle: Data, pn: Data, sealed: Data): Data
    requires 1 <= |pn| <= 4 && |sealed| >= 4 - |pn| + keys.sampleLen
  {
    var mask := keys.mask(sealed[4 - |pn|..][..keys.sampleLen]);
    [Xor(first, FirstMask(first, mask))] + (middle + (MaskPn(pn, mask, first % 4 + 1) + sealed))
  }

  /** The packet-number length announced by an unprotected first byte. */
  function PnLenOf(long: bool, first: Byte): (n: nat)
    ensures 1 <= n <= 4
  {
    if long then first % 4 + 1 else if first % 4 == 0 then 4 else first % 4
  }

  datatype Unprotected = Unprotected(pn: Data, aad: Data, sealed: Data)

  predicate HasSample(keys: DirectionalKeys, packet: Data, pnOffset: nat)
  {
    |packet| >= pnOffset + 4 + keys.sampleLen
  }

  /** Removes header protection: packet number, associated data and sealed payload. */
  function Unprotect(keys: DirectionalKeys, long: bool, packet: Data, pnOffset: nat): (u: Unprotected)
    requires 1 <= pnOffset && HasSample(keys, packet, pnOffset)
    ensures 1 <= |u.pn| <= 4
  {
    var mask := keys.mask(packet[pnOffset + 4..][..keys.sampleLen]);
    var first := Xor(packet[0], FirstMask(packet[0], mask));
    var n := PnLenOf(long, first);
    var pn := MaskPn(packet[pnOffset..pnOffset + 4], mask, first % 4 + 1)[..n];
    Unprotected(pn, [first] + (packet[1..pnOffset] + pn), packet[pnOffset + n..])
  }

  // ------------------------------------------------------------ opening packets

  /** Opens a packet: its packet number and its frames. */
  function Open(keys: DirectionalKeys, long: bool, largest: nat, packet: Data, pnOffset: nat)
    : (r: Result<(nat, seq<Frames.Frame>), ConnectionError>)
    requires 1 <= pnOffset && HasSample(keys, packet, pnOffset)
  {
    var u := Unprotect(keys, long, packet, pnOffset);
    var pn := DecodePacketNumber(largest, ReadPn(u.pn), |u.pn|);
    match keys.open(pn, u.aad, u.sealed)
    case None => Err(Transport(PROTOCOL_VIOLATION))
    case Some(text) =>
      match Frames.FramesOf(text)
      case Err(_) => Err(BadFrame)
      case Ok(frames) => Ok((pn, frames))
  }

  /** Long headers: the length is checked, and the packet number decoded against zero. */
  function OpenLong(keys: DirectionalKeys, packet: Data, pnOffset: nat)
    : (r: Result<(nat, seq<Frames.Frame>), ConnectionError>)
    requires 1 <= pnOffset
  {
    if !HasSample(keys, packet, pnOffset) then Err(BadPacket) else Open(keys, true, 0, packet, pnOffset)
  }

  /** Where the receiver looks for the packet number of a long header without a token. */
  function PnOffsetLong(h: LongHeader): (n: nat)
    ensures n >= 7
  {
    1 + 4 + 1 + |h.dstCid| + 1 + |h.srcCid| + (if h.ty == Initial then 1 else 0)
    + (if h.length.Some? then VarInt.EncodedLen(h.length.value) else 0)
  }

  // ------------------------------------------------------------ sealing packets

  function EncodedPnLen(pn: nat): (n: nat)
    ensures n == 1 || n == 2 || n == 4
  {
    if pn < 256 then 1 else if pn < 65536 then 2 else 4
  }

  function TypeOfLevel(level: Level): LongType
  {
    if level == INITIAL then Initial else if level == HANDSHAKE then Handshake else ZeroRtt
  }

  /** The header of a long packet with `payload` bytes of frames. */
  function HeaderFor(keys: DirectionalKeys, level: Level, version: U32, dst: Data, src: Data,
                     payload: nat, pnLen: nat): LongHeader
  {
    LongHeader(TypeOfLevel(level), version, dst, src,
               if level == INITIAL then Some([]) else None,
               Some(pnLen + payload + keys.tagLen), None, Some(pnLen))
  }

  function SealLong(keys: DirectionalKeys, level: Level, version: U32, dst: Data, src: Data,
                    payload: Data, pn: nat, pnLen: nat): (r: Result<Data, ConnectionError>)
    requires 1 <= pnLen <= 4
  {
    var h := HeaderFor(keys, level, version, dst, src, |payload|, pnLen);
    var middle, pnBytes := LongMiddle(h, []), BigEndian(pn, pnLen);
    if h.length.value > VarInt.VARINT_MAX then Err(Transport(INTERNAL_ERROR))
    else SealWith(keys, LongFirst(h), middle, pnBytes, pn, payload)
  }

  /** Seals a payload under a header and protects the header; too little sealed text to take a
      sample from cannot happen with the padding of `PaddedPayload`. */
  function SealWith(keys: DirectionalKeys, first: Byte, middle: Data, pnBytes: Data, pn: nat,
                    payload: Data): (r: Result<Data, ConnectionError>)
    requires 1 <= |pnBytes| <= 4
  {
    match keys.seal(pn, [first] + (middle + pnBytes), payload)
    case None => Err(Transport(INTERNAL_ERROR))
    case Some(sealed) =>
      if |sealed| < 4 - |pnBytes| + keys.sampleLen then Err(Transport(INTERNAL_ERROR))
      else Ok(Protect(keys, first, middle, pnBytes, sealed))
  }

  function ShortFirstByte(pnLen: nat, keyPhase: bool): (b: Byte)
    requires 1 <= pnLen <= 4
  {
    0x40 + (if keyPhase then 0x04 else 0) + (if pnLen == 4 then 0 else pnLen)
  }

  function SealShort(keys: DirectionalKeys, dst: Data, payload: Data, pn: nat, pnLen: nat,
                     keyPhase: bool): (r: Result<Data, ConnectionError>)
    requires 1 <= pnLen <= 4
  {
    SealWith(keys, ShortFirstByte(pnLen, keyPhase), dst, BigEndian(pn, pnLen), pn, payload)
  }

  function HdrSizeLong(dstLen: nat, srcLen: nat, length: nat): nat
  {
    1 + 4 + 1 + dstLen + 1 + srcLen + 1 + VarInt.EncodedLen(length)
  }

  function Sub(a: nat, b: nat): nat
  {
    if a > b then a - b else 0
  }

  /** The length an Initial's frames are padded to. */
  function InitialPayload(dstLen: nat, srcLen: nat, payload: nat, pnLen: nat, tagLen: nat): nat
  {
    Sub(MIN_INITIAL_SIZE, HdrSizeLong(dstLen, srcLen, payload + pnLen + tagLen) + tagLen)
  }

  function PadData(s: Data, n: nat): Data
  {
    s + Zeros(Sub(n, |s|))
  }

  /** The frames of a packet with the padding that the minimum size of an Initial and the
      header-protection sample ask for. */
  function PaddedPayload(keys: DirectionalKeys, level: Level, dst: Data, src: Data,
                         wire: Data, pnLen: nat): Data
    requires pnLen <= 4
  {
    var padded := if level == INITIAL
                  then PadData(wire, InitialPayload(|dst|, |src|, |wire|, pnLen, keys.tagLen))
                  else wire;
    PadData(padded, keys.sampleLen + 4 - pnLen)
  }

  predicate AllWritable(frames: seq<Frames.Frame>)
  {
    forall f :: f in frames ==> Frames.Writable(f)
  }

  /** A whole packet. Application data uses the short header once established. */
  function SealPacket(keys: DirectionalKeys, level: Level, version: U32, dst: Data, src: Data,
                      frames: seq<Frames.Frame>, pn: nat, pnLen: nat, established: bool)
    : (r: Result<Data, ConnectionError>)
    requires 1 <= pnLen <= 4
  {
    if !AllWritable(frames) then Err(BadFrame)
    else
      var payload := PaddedPayload(keys, level, dst, src, Frames.ListWire(frames, []), pnLen);
      if level != APPDATA || !established
      then SealLong(keys, level, version, dst, src, payload, pn, pnLen)
      else SealShort(keys, dst, payload, pn, pnLen, false)
  }

  // ------------------------------------------------------------ the other Initial builders

  function ClientHelloFrame(hello: Data): Frames.Frame
  {
    Frames.Crypto(0, hello)
  }

  /** The client's first packet, as `build_initial_packet` makes it: no header-protection
      padding beyond the 1200-byte rule. */
  function FirstInitial(keys: DirectionalKeys, dst: Data, src: Data, hello: Data)
    : (r: Result<Data, ConnectionError>)
  {
    if !Frames.Writable(ClientHelloFrame(hello)) then Err(BadFrame)
    else
      var wire := Frames.Wire(ClientHelloFrame(hello));
      var n := InitialPayload(|dst|, |src|, |wire|, 1, keys.tagLen);
      SealLong(keys, INITIAL, VERSION_1, dst, src, PadData(wire, n), 0, 1)
  }

  /** The Initial of `handshake.rs`: it reserves two bytes for the Length field, so that a
      payload that needs more is refused. */
  function ReservedInitial(keys: DirectionalKeys, dst: Data, src: Data, hello: Data)
    : (r: Result<Data, ConnectionError>)
  {
    if !Frames.Writable(ClientHelloFrame(hello)) then Err(BadFrame)
    else
      var wire := Frames.Wire(ClientHelloFrame(hello));
      var header := 1 + 4 + 1 + |dst| + 1 + |src| + 1 + 2 + 1;
      var payload := PadData(wire, Sub(MIN_INITIAL_SIZE, header + keys.tagLen));
      var h := HeaderFor(keys, INITIAL, VERSION_1, dst, src, |payload|, 1);
      if VarInt.EncodedLen(h.length.value) > 2 then Err(Transport(INTERNAL_ERROR))
      else SealLong(keys, INITIAL, VERSION_1, dst, src, payload, 0, 1)
  }
}
