/**
 The AEAD calls behind packets: what sealing a packet asks the cipher to seal, and what opening
 a datagram gets from it. A forgery is an opened text that the peer never sealed.
 */
module Integrity {
  import opened Wrappers
  import opened Bytes
  import opened Packets
  import opened Protection
  import opened Connections
  import Delivery
  import Frames
  import FrameLaws
  import PacketLaws
  import ProtectionLaws

  /** One text under the keys of a level, with its packet number and associated data. */
  datatype SealCall = SealCall(level: Level, pn: nat, aad: Data, text: Data)

  /** The call that seals a packet. */
  function CallFor(keys: DirectionalKeys, level: Level, version: U32, dst: Data, src: Data,
                   frames: seq<Frames.Frame>, pn: nat, pnLen: nat, established: bool): SealCall
    requires 1 <= pnLen <= 4
  {
    var payload := PaddedPayload(keys, level, dst, src, Frames.ListWire(frames, []), pnLen);
    if level != APPDATA || !established then
      var h := HeaderFor(keys, level, version, dst, src, |payload|, pnLen);
      SealCall(level, pn, [LongFirst(h)] + (LongMiddle(h, []) + BigEndian(pn, pnLen)), payload)
    else
      SealCall(level, pn, [ShortFirstByte(pnLen, false)] + (dst + BigEndian(pn, pnLen)), payload)
  }

  /** A packet ends with what the cipher made of that call. */
  lemma CallMade(keys: DirectionalKeys, level: Level, version: U32, dst: Data, src: Data,
                 frames: seq<Frames.Frame>, pn: nat, pnLen: nat, established: bool)
    requires 1 <= pnLen <= 4
    requires SealPacket(keys, level, version, dst, src, frames, pn, pnLen, established).Ok?
    ensures var packet := SealPacket(keys, level, version, dst, src, frames, pn, pnLen, established).value;
            var call := CallFor(keys, level, version, dst, src, frames, pn, pnLen, established);
            var sealed := keys.seal(call.pn, call.aad, call.text);
            && AllWritable(frames) && sealed.Some? && |sealed.value| <= |packet|
            && packet[|packet| - |sealed.value|..] == sealed.value
  {
    hide PaddedPayload, Frames.ListWire, LongMiddle, LongFirst, BigEndian, Xor, MaskPn, FirstMask,
         ShortFirstByte, AllWritable;
  }

  /** The frames of that text are the packet's frames and PADDING. */
  lemma CallText(keys: DirectionalKeys, level: Level, version: U32, dst: Data, src: Data,
                 frames: seq<Frames.Frame>, pn: nat, pnLen: nat, established: bool)
    requires 1 <= pnLen <= 4 && AllWritable(frames) && Delivery.Sturdy(frames)
    ensures Frames.FramesOf(CallFor(keys, level, version, dst, src, frames, pn, pnLen, established).text)
         == Ok(frames + FrameLaws.Pads(ProtectionLaws.PadCount(keys, level, dst, src, frames, pnLen)))
  {
    hide PaddedPayload, Frames.ListWire, Frames.FramesOf, LongMiddle, LongFirst, BigEndian,
         ShortFirstByte, AllWritable, ProtectionLaws.PadCount, FrameLaws.Pads, FrameLaws.ListRecoverable;
    ProtectionLaws.PaddedBack(keys, level, dst, src, frames, pnLen);
  }

  /** The call that opens a packet. */
  function CallOf(keys: DirectionalKeys, level: Level, long: bool, largest: nat, packet: Data, pnOffset: nat)
    : SealCall
    requires 1 <= pnOffset && HasSample(keys, packet, pnOffset)
    requires Open(keys, long, largest, packet, pnOffset).Ok?
  {
    var u := Unprotect(keys, long, packet, pnOffset);
    var pn := DecodePacketNumber(largest, ReadPn(u.pn), |u.pn|);
    SealCall(level, pn, u.aad, keys.open(pn, u.aad, u.sealed).value)
  }

  /** The call by which a connection opened a datagram. */
  function CallOpened(c: Conn, buf: Data): SealCall
    requires buf != [] && SampleThere(c, buf) && Receive(c, buf).Ok?
  {
    if buf[0] < 0x80 then
      CallOf(c.spaces.appdata.keys.value.remote, APPDATA, false, c.spaces.appdata.largestRecvPn,
             buf, 1 + |c.dstCid|)
    else
      var h := LongHeaderAt(buf).value.0;
      var level := LevelOf(h.ty);
      CallOf(c.spaces.At(level).keys.value.remote, level, true, 0, buf, PnOffsetLong(h))
  }

  /** What arrives is what that call's text says, and nothing else. */
  lemma ArrivalIsCall(c: Conn, buf: Data)
    requires buf != [] && SampleThere(c, buf) && Receive(c, buf).Ok?
    ensures var call := CallOpened(c, buf);
            && Frames.FramesOf(call.text).Ok?
            && Receive(c, buf) == Ok(Arrival(call.level, call.pn, Frames.FramesOf(call.text).value))
  {
    hide Unprotect, DecodePacketNumber, ReadPn, Frames.FramesOf, ShortHeaderAt, LongHeaderAt,
         PnOffsetLong, HasSample;
  }

  /** Opening what was sealed under the peer's keys is opening that very call. */
  lemma CallInverts(s: DirectionalKeys, r: DirectionalKeys, level: Level, long: bool, largest: nat,
                    first: Byte, middle: Data, pn: nat, pnLen: nat, payload: Data)
    requires Opens(s, r) && 1 <= pnLen <= 4 && PnLenOf(long, first) == pnLen
    requires SealWith(s, first, middle, BigEndian(pn, pnLen), pn, payload).Ok?
    requires DecodePacketNumber(largest, Mod(pn, Pow256(pnLen)), pnLen) == pn
    requires Frames.FramesOf(payload).Ok?
    ensures var packet := SealWith(s, first, middle, BigEndian(pn, pnLen), pn, payload).value;
            && HasSample(r, packet, 1 + |middle|)
            && Open(r, long, largest, packet, 1 + |middle|).Ok?
            && CallOf(r, level, long, largest, packet, 1 + |middle|)
               == SealCall(level, pn, [first] + (middle + BigEndian(pn, pnLen)), payload)
  {
    hide Protect, Unprotect, DecodePacketNumber, ReadPn, Frames.FramesOf, BigEndian, PnLenOf, Mod;
    var pnBytes := BigEndian(pn, pnLen);
    var sealed := s.seal(pn, [first] + (middle + pnBytes), payload).value;
    ProtectionLaws.UnprotectInverts(s, r, long, first, middle, pnBytes, sealed);
    ReadTruncated(pn, pnLen);
  }

  lemma CallOpenedLong(c: Conn, buf: Data, level: Level, pnOffset: nat)
    requires buf != [] && buf[0] >= 0x80 && SampleThere(c, buf) && Receive(c, buf).Ok?
    requires LongHeaderAt(buf).Ok? && LevelOf(LongHeaderAt(buf).value.0.ty) == level
    requires PnOffsetLong(LongHeaderAt(buf).value.0) == pnOffset
    requires c.spaces.At(level).keys.Some?
    requires var r := c.spaces.At(level).keys.value.remote;
             HasSample(r, buf, pnOffset) && Open(r, true, 0, buf, pnOffset).Ok?
    ensures CallOpened(c, buf)
         == CallOf(c.spaces.At(level).keys.value.remote, level, true, 0, buf, pnOffset)
  {
    hide Open, OpenLong, LongHeaderAt, PnOffsetLong, HasSample, CallOf, ShortHeaderAt;
  }

  /** A long packet at its receiver: where the packet number is looked for, and which call
      opens it. */
  lemma LongCall(s: DirectionalKeys, r: DirectionalKeys, level: Level, version: U32, dst: Data,
                 src: Data, frames: seq<Frames.Frame>, pn: nat, pnLen: nat, established: bool)
    requires Opens(s, r) && version != 0 && |dst| <= MAX_CID_LEN && |src| <= MAX_CID_LEN
    requires 1 <= pnLen <= 4 && pn < Pow256(pnLen) && (level != APPDATA || !established)
    requires SealPacket(s, level, version, dst, src, frames, pn, pnLen, established).Ok?
    requires Frames.FramesOf(CallFor(s, level, version, dst, src, frames, pn, pnLen, established).text).Ok?
    ensures var packet := SealPacket(s, level, version, dst, src, frames, pn, pnLen, established).value;
            && packet != [] && packet[0] >= 0x80 && LongHeaderAt(packet).Ok?
            && var got := LongHeaderAt(packet).value.0;
            && LevelOf(got.ty) == level && HasSample(r, packet, PnOffsetLong(got))
            && Open(r, true, 0, packet, PnOffsetLong(got)).Ok?
            && CallOf(r, level, true, 0, packet, PnOffsetLong(got))
               == CallFor(s, level, version, dst, src, frames, pn, pnLen, established)
  {
    hide PaddedPayload, SealWith, Open, HasSample, DecodePacketNumber, Mod, Pow256,
         Frames.FramesOf, Frames.ListWire, BigEndian, LongMiddle, LongFirst, AllWritable,
         LongHeaderAt, PnOffsetLong, CallOf, Opens;
    var payload := PaddedPayload(s, level, dst, src, Frames.ListWire(frames, []), pnLen);
    var h := HeaderFor(s, level, version, dst, src, |payload|, pnLen);
    PacketLaws.DecodeAgainstZero(pn, pnLen);
    ProtectionLaws.LongFirstLen(h);
    CallInverts(s, r, level, true, 0, LongFirst(h), LongMiddle(h, []), pn, pnLen, payload);
    ProtectionLaws.ProtectedLongHeader(s, h, pn, payload);
  }

  /** A peer's long packet is no forgery: it is opened by the call that sealed it. */
  lemma HonestLong(b: Conn, s: DirectionalKeys, level: Level, version: U32, dst: Data, src: Data,
                   frames: seq<Frames.Frame>, pn: nat, pnLen: nat, established: bool)
    requires b.spaces.At(level).keys.Some? && Opens(s, b.spaces.At(level).keys.value.remote)
    requires version != 0 && |dst| <= MAX_CID_LEN && |src| <= MAX_CID_LEN
    requires 1 <= pnLen <= 4 && pn < Pow256(pnLen) && (level != APPDATA || !established)
    requires SealPacket(s, level, version, dst, src, frames, pn, pnLen, established).Ok?
    requires Delivery.Sturdy(frames)
    ensures var packet := SealPacket(s, level, version, dst, src, frames, pn, pnLen, established).value;
            && packet != [] && SampleThere(b, packet) && Receive(b, packet).Ok?
            && CallOpened(b, packet)
               == CallFor(s, level, version, dst, src, frames, pn, pnLen, established)
  {
    hide SealPacket, CallFor, CallOf, CallOpened, Open, OpenLong, HasSample, Receive, SampleThere, Opens,
         LongHeaderAt, PnOffsetLong, Frames.FramesOf, AllWritable, Delivery.Sturdy, Pow256,
         ProtectionLaws.PadCount, FrameLaws.Pads;
    Delivery.LongReceived(b, s, level, version, dst, src, frames, pn, pnLen, established);
    CallMade(s, level, version, dst, src, frames, pn, pnLen, established);
    CallText(s, level, version, dst, src, frames, pn, pnLen, established);
    LongCall(s, b.spaces.At(level).keys.value.remote, level, version, dst, src, frames, pn, pnLen,
             established);
    var packet := SealPacket(s, level, version, dst, src, frames, pn, pnLen, established).value;
    CallOpenedLong(b, packet, level, PnOffsetLong(LongHeaderAt(packet).value.0));
  }

  /** So is a peer's short packet that passes the header check. */
  lemma HonestShort(b: Conn, s: DirectionalKeys, version: U32, dst: Data, src: Data,
                    frames: seq<Frames.Frame>, pn: nat, pnLen: nat)
    requires b.spaces.appdata.keys.Some? && Opens(s, b.spaces.appdata.keys.value.remote)
    requires |dst| == |b.dstCid| <= MAX_CID_LEN && 1 <= pnLen <= 4
    requires PacketLaws.InWindow(b.spaces.appdata.largestRecvPn, pn, pnLen)
    requires SealPacket(s, APPDATA, version, dst, src, frames, pn, pnLen, true).Ok?
    requires Delivery.Sturdy(frames)
    ensures var packet := SealPacket(s, APPDATA, version, dst, src, frames, pn, pnLen, true).value;
            && packet != [] && SampleThere(b, packet)
            && (Receive(b, packet).Ok? ==>
                  CallOpened(b, packet)
                  == CallFor(s, APPDATA, version, dst, src, frames, pn, pnLen, true))
  {
    Delivery.ShortReceived(b, s, version, dst, src, frames, pn, pnLen);
    CallText(s, APPDATA, version, dst, src, frames, pn, pnLen, true);
    hide PaddedPayload, SealWith, Open, HasSample, DecodePacketNumber, Mod, Pow256, Receive,
         Frames.FramesOf, Frames.ListWire, BigEndian, AllWritable, CallOf, Opens, SampleThere,
         Delivery.Sturdy, PnLenOf, ShortFirstByte, PacketLaws.InWindow, ProtectionLaws.ShortMask;
    var payload := PaddedPayload(s, APPDATA, dst, src, Frames.ListWire(frames, []), pnLen);
    PacketLaws.DecodeInverts(b.spaces.appdata.largestRecvPn, pn, pnLen);
    ProtectionLaws.ShortPnLen(pnLen);
    Delivery.Shape(s, APPDATA, version, dst, src, frames, pn, pnLen, true);
    CallInverts(s, b.spaces.appdata.keys.value.remote, APPDATA, false, b.spaces.appdata.largestRecvPn,
                ShortFirstByte(pnLen, false), dst, pn, pnLen, payload);
  }
}
