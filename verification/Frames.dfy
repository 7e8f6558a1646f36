/** The twenty frame types and their wire format (section 19 of RFC 9000). */
module Frames {
  import opened Wrappers
  import opened Bytes
  import VarInt

  type Path8 = d: Data | |d| == 8 witness seq(8, _ => 0)
  type Token16 = d: Data | |d| == 16 witness seq(16, _ => 0)

  datatype AckRange = AckRange(gap: nat, range: nat)

  datatype EcnCounts = EcnCounts(ect0: nat, ect1: nat, ecnCe: nat)

  datatype FrameError =
    | UnknownType(frameType: nat)
    | NonMinimalType(frameType: nat)
    | BadVarInt(cause: VarInt.VarIntError)
    | Underflow(expected: nat)
    | InvalidCidLength(length: nat)

  datatype Frame =
    | Padding
    | Ping
    | Ack(largestAck: nat, ackDelay: nat, ranges: seq<AckRange>, ecn: Option<EcnCounts>)
    | ResetStream(streamId: nat, errorCode: nat, finalSize: nat)
    | StopSending(streamId: nat, errorCode: nat)
    | Crypto(offset: nat, data: Data)
    | NewToken(token: Data)
    | Stream(streamId: nat, offset: nat, data: Data, fin: bool)
    | MaxData(maximum: nat)
    | MaxStreamData(streamId: nat, maximum: nat)
    | MaxStreams(bidi: bool, maximum: nat)
    | DataBlocked(limit: nat)
    | StreamDataBlocked(streamId: nat, limit: nat)
    | StreamsBlocked(bidi: bool, limit: nat)
    | NewConnectionId(sequence: nat, retirePriorTo: nat, id: Data, resetToken: Token16)
    | RetireConnectionId(sequence: nat)
    | PathChallenge(path: Path8)
    | PathResponse(path: Path8)
    | ConnectionClose(errorCode: nat, frameType: Option<nat>, reason: Data)
    | HandshakeDone

  // ------------------------------------------------------------ wire format, reading

  /** Reads a varint: its value and what follows it. */
  function TakeVarint(s: Data): (r: Result<(nat, Data), FrameError>)
    ensures r.Ok? ==> |r.value.1| < |s| && r.value.0 <= VarInt.VARINT_MAX
  {
    match VarInt.Decode(s)
    case Err(e) => Err(BadVarInt(e))
    case Ok((v, n)) =>
      VarInt.ShortestForm(s);
      VarInt.DecodeMeaning(s);
      Ok((v, s[n..]))
  }

  function TakeU8(s: Data): (r: Result<(Byte, Data), FrameError>)
    ensures r.Ok? ==> |r.value.1| < |s|
  {
    if s == [] then Err(Underflow(1)) else Ok((s[0], s[1..]))
  }

  function TakeBytes(s: Data, n: nat): (r: Result<(Data, Data), FrameError>)
    ensures r.Ok? ==> |r.value.0| == n && |r.value.1| == |s| - n
  {
    if |s| < n then Err(Underflow(n)) else Ok((s[..n], s[n..]))
  }

  function TakeVarintBytes(s: Data): (r: Result<(Data, Data), FrameError>)
    ensures r.Ok? ==> |r.value.1| < |s| && |r.value.0| <= VarInt.VARINT_MAX
  {
    var (n, s1) :- TakeVarint(s);
    TakeBytes(s1, n)
  }

  function TakeRanges(count: nat, s: Data): (r: Result<(seq<AckRange>, Data), FrameError>)
    ensures r.Ok? ==> |r.value.0| == count && |r.value.1| <= |s|
  {
    if count == 0 then Ok(([], s))
    else
      var (gap, s1) :- TakeVarint(s);
      var (range, s2) :- TakeVarint(s1);
      var (rest, s3) :- TakeRanges(count - 1, s2);
      Ok(([AckRange(gap, range)] + rest, s3))
  }

  function TakeEcn(s: Data): (r: Result<(EcnCounts, Data), FrameError>)
    ensures r.Ok? ==> |r.value.1| <= |s|
  {
    var (ect0, s1) :- TakeVarint(s);
    var (ect1, s2) :- TakeVarint(s1);
    var (ce, s3) :- TakeVarint(s2);
    Ok((EcnCounts(ect0, ect1, ce), s3))
  }

  function AckBody(ecn: bool, s: Data): (r: Result<(Frame, Data), FrameError>)
    ensures r.Ok? ==> |r.value.1| <= |s|
  {
    var (largest, s1) :- TakeVarint(s);
    var (delay, s2) :- TakeVarint(s1);
    var (count, s3) :- TakeVarint(s2);
    var (first, s4) :- TakeVarint(s3);
    var (more, s5) :- TakeRanges(count, s4);
    var ranges := [AckRange(0, first)] + more;
    if ecn then
      var (counts, s6) :- TakeEcn(s5);
      Ok((Ack(largest, delay, ranges, Some(counts)), s6))
    else
      Ok((Ack(largest, delay, ranges, None), s5))
  }

  /** A STREAM frame: bit 2 of the type announces an offset, bit 1 a length, bit 0 is FIN. */
  function StreamBody(ft: nat, s: Data): (r: Result<(Frame, Data), FrameError>)
    ensures r.Ok? ==> |r.value.1| <= |s|
  {
    var (id, s1) :- TakeVarint(s);
    var (offset, s2) :- if ft / 4 % 2 == 1 then TakeVarint(s1) else Ok((0, s1));
    var (data, s3) :- if ft / 2 % 2 == 1 then TakeVarintBytes(s2) else Ok((s2, []));
    Ok((Stream(id, offset, data, ft % 2 == 1), s3))
  }

  function NewConnectionIdBody(s: Data): (r: Result<(Frame, Data), FrameError>)
    ensures r.Ok? ==> |r.value.1| <= |s|
  {
    var (sequence, s1) :- TakeVarint(s);
    var (retire, s2) :- TakeVarint(s1);
    var (len, s3) :- TakeU8(s2);
    if !(1 <= len <= 20) then Err(InvalidCidLength(len))
    else
      var (id, s4) :- TakeBytes(s3, len);
      var (token, s5) :- TakeBytes(s4, 16);
      Ok((NewConnectionId(sequence, retire, id, token), s5))
  }

  function CloseBody(isApp: bool, s: Data): (r: Result<(Frame, Data), FrameError>)
    ensures r.Ok? ==> |r.value.1| <= |s|
  {
    var (code, s1) :- TakeVarint(s);
    if isApp then
      var (reason, s2) :- TakeVarintBytes(s1);
      Ok((ConnectionClose(code, None, reason), s2))
    else
      var (ty, s2) :- TakeVarint(s1);
      var (reason, s3) :- TakeVarintBytes(s2);
      Ok((ConnectionClose(code, Some(ty), reason), s3))
  }

  function CryptoBody(s: Data): (r: Result<(Frame, Data), FrameError>)
    ensures r.Ok? ==> |r.value.1| <= |s|
  {
    var (offset, s1) :- TakeVarint(s);
    var (data, s2) :- TakeVarintBytes(s1);
    Ok((Crypto(offset, data), s2))
  }

  function NewTokenBody(s: Data): (r: Result<(Frame, Data), FrameError>)
    ensures r.Ok? ==> |r.value.1| <= |s|
  {
    var (token, s1) :- TakeVarintBytes(s);
    Ok((NewToken(token), s1))
  }

  function PathBody(challenge: bool, s: Data): (r: Result<(Frame, Data), FrameError>)
    ensures r.Ok? ==> |r.value.1| <= |s|
  {
    var (path, s1) :- TakeBytes(s, 8);
    Ok((if challenge then PathChallenge(path) else PathResponse(path), s1))
  }

  /** Frames whose body is one, two or three varints, for the types that have one. */
  function VarintBody(ft: nat, s: Data): (r: Result<(Frame, Data), FrameError>)
    requires ft == 0x04 || ft == 0x05 || 0x10 <= ft <= 0x17 || ft == 0x19
    ensures r.Ok? ==> |r.value.1| <= |s|
  {
    var (a, s1) :- TakeVarint(s);
    if ft == 0x10 then Ok((MaxData(a), s1))
    else if ft == 0x12 || ft == 0x13 then Ok((MaxStreams(ft == 0x12, a), s1))
    else if ft == 0x14 then Ok((DataBlocked(a), s1))
    else if ft == 0x16 || ft == 0x17 then Ok((StreamsBlocked(ft == 0x16, a), s1))
    else if ft == 0x19 then Ok((RetireConnectionId(a), s1))
    else
      var (b, s2) :- TakeVarint(s1);
      if ft == 0x05 then Ok((StopSending(a, b), s2))
      else if ft == 0x11 then Ok((MaxStreamData(a, b), s2))
      else if ft == 0x15 then Ok((StreamDataBlocked(a, b), s2))
      else
        var (c, s3) :- TakeVarint(s2);
        Ok((ResetStream(a, b, c), s3))
  }

  /** What follows the type byte; the type is the decoded value cut to eight bits. */
  function Body(frameType: nat, s: Data): (r: Result<(Frame, Data), FrameError>)
    ensures r.Ok? ==> |r.value.1| <= |s|
  {
    var ft := frameType % 256;
    if ft == 0x00 then Ok((Padding, s))
    else if ft == 0x01 then Ok((Ping, s))
    else if ft == 0x02 || ft == 0x03 then AckBody(frameType % 2 == 1, s)
    else if ft == 0x04 || ft == 0x05 || 0x10 <= ft <= 0x17 || ft == 0x19 then VarintBody(ft, s)
    else if ft == 0x06 then CryptoBody(s)
    else if ft == 0x07 then NewTokenBody(s)
    else if 0x08 <= ft <= 0x0f then StreamBody(ft, s)
    else if ft == 0x18 then NewConnectionIdBody(s)
    else if ft == 0x1a || ft == 0x1b then PathBody(ft == 0x1a, s)
    else if ft == 0x1c || ft == 0x1d then CloseBody(ft == 0x1d, s)
    else if ft == 0x1e then Ok((HandshakeDone, s))
    else Err(UnknownType(frameType))
  }

  /** The frame at the front of `s`, and what follows it. */
  function TakeFrame(s: Data): (r: Result<(Frame, Data), FrameError>)
    ensures r.Ok? ==> |r.value.1| < |s|
  {
    match VarInt.Decode(s)
    case Err(e) => Err(BadVarInt(e))
    case Ok((frameType, _)) =>
      VarInt.ShortestForm(s);
      if frameType <= 63 && VarInt.EncodedLen(frameType) != 1 then Err(NonMinimalType(frameType))
      else Body(frameType, s[1..])
  }

  /** The frames a receiver reads from a whole plaintext. */
  function FramesOf(s: Data): (r: Result<seq<Frame>, FrameError>)
    decreases |s|
  {
    if s == [] then Ok([])
    else
      var (frame, rest) :- TakeFrame(s);
      var frames :- FramesOf(rest);
      Ok([frame] + frames)
  }

  // ------------------------------------------------------------ wire format, writing

  function RangesWire(ranges: seq<AckRange>, t: Data): Data
  {
    if ranges == [] then t
    else VarInt.Enc(ranges[0].gap) + (VarInt.Enc(ranges[0].range) + RangesWire(ranges[1..], t))
  }

  function EcnWire(ecn: Option<EcnCounts>, t: Data): Data
  {
    match ecn
    case None => t
    case Some(e) => VarInt.Enc(e.ect0) + (VarInt.Enc(e.ect1) + (VarInt.Enc(e.ecnCe) + t))
  }

  function BytesWire(d: Data, t: Data): Data
  {
    VarInt.Enc(|d|) + (d + t)
  }

  function StreamType(f: Frame): (b: Byte)
    requires f.Stream?
  {
    0x08 + (if f.fin then 1 else 0) + (if f.offset > 0 then 4 else 0)
    + (if f.data != [] then 2 else 0)
  }

  /** The type byte; the low bits of ACK, STREAM and CONNECTION_CLOSE types are flags. */
  function TypeOf(f: Frame): (b: Byte)
    ensures b < 0x1f
  {
    match f
    case Padding => 0x00
    case Ping => 0x01
    case Ack(_, _, _, ecn) => if ecn.Some? then 0x03 else 0x02
    case ResetStream(_, _, _) => 0x04
    case StopSending(_, _) => 0x05
    case Crypto(_, _) => 0x06
    case NewToken(_) => 0x07
    case Stream(_, _, _, _) => StreamType(f)
    case MaxData(_) => 0x10
    case MaxStreamData(_, _) => 0x11
    case MaxStreams(bidi, _) => if bidi then 0x12 else 0x13
    case DataBlocked(_) => 0x14
    case StreamDataBlocked(_, _) => 0x15
    case StreamsBlocked(bidi, _) => if bidi then 0x16 else 0x17
    case NewConnectionId(_, _, _, _) => 0x18
    case RetireConnectionId(_) => 0x19
    case PathChallenge(_) => 0x1a
    case PathResponse(_) => 0x1b
    case ConnectionClose(_, ty, _) => if ty.Some? then 0x1c else 0x1d
    case HandshakeDone => 0x1e
  }

  function AckWire(f: Frame, t: Data): Data
    requires f.Ack?
  {
    if f.ranges == [] then
      t
    else
      VarInt.Enc(f.largestAck) + (VarInt.Enc(f.ackDelay) + (VarInt.Enc(|f.ranges| - 1)
        + (VarInt.Enc(f.ranges[0].range) + RangesWire(f.ranges[1..], EcnWire(f.ecn, t)))))
  }

  function StreamWire(f: Frame, t: Data): Data
    requires f.Stream?
  {
    VarInt.Enc(f.streamId) + ((if f.offset > 0 then VarInt.Enc(f.offset) else [])
      + (if f.data != [] then BytesWire(f.data, t) else t))
  }

  function NewConnectionIdWire(f: Frame, t: Data): Data
    requires f.NewConnectionId?
  {
    VarInt.Enc(f.sequence) + (VarInt.Enc(f.retirePriorTo) + ([|f.id| % 256] + (f.id + (f.resetToken + t))))
  }

  function CloseWire(f: Frame, t: Data): Data
    requires f.ConnectionClose?
  {
    VarInt.Enc(f.errorCode) + (if f.frameType.Some? then VarInt.Enc(f.frameType.value) + BytesWire(f.reason, t)
                        else BytesWire(f.reason, t))
  }

  /** The varints that make up the body of a frame with no byte strings. */
  function Varints(f: Frame): seq<nat>
  {
    match f
    case ResetStream(id, code, size) => [id, code, size]
    case StopSending(id, code) => [id, code]
    case MaxData(m) => [m]
    case MaxStreamData(id, m) => [id, m]
    case MaxStreams(_, m) => [m]
    case DataBlocked(l) => [l]
    case StreamDataBlocked(id, l) => [id, l]
    case StreamsBlocked(_, l) => [l]
    case RetireConnectionId(sequence) => [sequence]
    case _ => []
  }

  function VarintsWire(vs: seq<nat>, t: Data): Data
  {
    if vs == [] then t else VarInt.Enc(vs[0]) + VarintsWire(vs[1..], t)
  }

  /** What follows the type byte of `f`, then `t`. */
  function BodyWire(f: Frame, t: Data): Data
  {
    match f
    case Ack(_, _, _, _) => AckWire(f, t)
    case Crypto(offset, data) => VarInt.Enc(offset) + BytesWire(data, t)
    case NewToken(token) => BytesWire(token, t)
    case Stream(_, _, _, _) => StreamWire(f, t)
    case NewConnectionId(_, _, _, _) => NewConnectionIdWire(f, t)
    case PathChallenge(path) => path + t
    case PathResponse(path) => path + t
    case ConnectionClose(_, _, _) => CloseWire(f, t)
    case _ => VarintsWire(Varints(f), t)
  }

  /** The bytes of `f` followed by `t`. */
  function WireTo(f: Frame, t: Data): Data
  {
    [TypeOf(f)] + BodyWire(f, t)
  }

  function Wire(f: Frame): (w: Data)
  {
    WireTo(f, [])
  }

  predicate Fits(v: nat)
  {
    v <= VarInt.VARINT_MAX
  }

  /** Every integer the frame puts on the wire has a varint encoding. */
  predicate Writable(f: Frame)
  {
    match f
    case Ack(largest, delay, ranges, ecn) =>
      && ranges != [] && Fits(largest) && Fits(delay) && Fits(|ranges| - 1) && Fits(ranges[0].range)
      && (forall i :: 1 <= i < |ranges| ==> Fits(ranges[i].gap) && Fits(ranges[i].range))
      && (ecn.Some? ==> Fits(ecn.value.ect0) && Fits(ecn.value.ect1) && Fits(ecn.value.ecnCe))
    case Crypto(offset, data) => Fits(offset) && Fits(|data|)
    case NewToken(token) => Fits(|token|)
    case Stream(id, offset, data, _) => Fits(id) && Fits(offset) && Fits(|data|)
    case NewConnectionId(sequence, retire, _, _) => Fits(sequence) && Fits(retire)
    case ConnectionClose(code, ty, reason) =>
      Fits(code) && (ty.Some? ==> Fits(ty.value)) && Fits(|reason|)
    case _ => forall v :: v in Varints(f) ==> Fits(v)
  }

  /** The frame survives a round trip when the bytes `t` follow it in the packet. */
  predicate Recoverable(f: Frame, t: Data)
  {
    && (f.Ack? ==> f.ranges != [] && f.ranges[0].gap == 0)
    && (f.NewConnectionId? ==> 1 <= |f.id| <= 20)
    && (f.Stream? && f.data == [] ==> t == [])
  }

  /** The frames of a packet one after the other, then `t`. */
  function ListWire(fs: seq<Frame>, t: Data): Data
  {
    if fs == [] then t else WireTo(fs[0], ListWire(fs[1..], t))
  }
}
