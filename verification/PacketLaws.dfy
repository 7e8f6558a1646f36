/** Round trips of packet headers, and what packet-number recovery recovers. */
module PacketLaws {
  import opened Wrappers
  import opened Bytes
  import opened Packets
  import VarInt

  // ------------------------------------------------------------ packet numbers

  /** The window of numbers that `n`-byte truncation can tell apart. */
  predicate InWindow(largestKnown: nat, pn: nat, n: nat)
  {
    var expected, half := largestKnown + 1, Pow256(n) / 2;
    expected < pn + half && pn <= expected + half
  }

  lemma {:induction false} PowEven(n: nat)
    requires n > 0
    ensures Pow256(n) == Pow256(n) / 2 * 2 && Pow256(n) >= 256
  {
    if n > 1 {
      PowEven(n - 1);
    }
  }

  function Distance(a: nat, b: nat): nat
  {
    if a < b then b - a else a - b
  }

  /** Of all numbers with the truncated bytes, recovery returns one that is closest to the next
      expected number. */
  lemma DecodeIsClosest(largestKnown: nat, t: nat, n: nat)
    requires 1 <= n <= 4 && t < Pow256(n)
    ensures var r := DecodePacketNumber(largestKnown, t, n);
            && Mod(r, Pow256(n)) == t
            && forall x: nat :: Mod(x, Pow256(n)) == t ==>
                 Distance(r, largestKnown + 1) <= Distance(x, largestKnown + 1)
  {
    hide Mod, Pow256, DecodePacketNumber;
    var expected, win := largestKnown + 1, Pow256(n);
    var r := DecodePacketNumber(largestKnown, t, n);
    DecodeInBlock(largestKnown, t, n);
    PowEven(n);
    forall x: nat | Mod(x, win) == t ensures Distance(r, expected) <= Distance(x, expected) {
      if Distance(x, expected) < Distance(r, expected) {
        if InWindow(largestKnown, r, n) {
          CloseAndCongruent(x, r, win);
        } else {
          FloorBelow(x, win);
        }
      }
    }
  }

  /** The recovered number has the truncated bytes, and it lies in the window unless the
      number in the window would be negative. */
  lemma DecodeInBlock(largestKnown: nat, t: nat, n: nat)
    requires 1 <= n <= 4 && t < Pow256(n)
    ensures var r := DecodePacketNumber(largestKnown, t, n);
            && Mod(r, Pow256(n)) == t
            && (InWindow(largestKnown, r, n)
                || (r == t && r > largestKnown + 1 + Pow256(n) / 2))
  {
    hide Mod, Floor, Pow256;
    var expected, win := largestKnown + 1, Pow256(n);
    PowEven(n);
    InBlock(expected, t, win);
    ShiftByModulus(Floor(expected, win) + t, win);
  }

  /** Recovery undoes truncation exactly for the numbers in the window, and for the numbers
      of the first block when nothing below zero could be meant. */
  lemma DecodeInverts(largestKnown: nat, pn: nat, n: nat)
    requires 1 <= n <= 4
    ensures DecodePacketNumber(largestKnown, Mod(pn, Pow256(n)), n) == pn
            <==> InWindow(largestKnown, pn, n)
                 || (pn < Pow256(n) && pn > largestKnown + 1 + Pow256(n) / 2)
  {
    hide Mod, Pow256, DecodePacketNumber;
    var win := Pow256(n);
    PowEven(n);
    var t := Mod(pn, win);
    InBlock(pn, 0, win);
    InBlock(t, 0, win);
    var r := DecodePacketNumber(largestKnown, t, n);
    DecodeInBlock(largestKnown, t, n);
    if InWindow(largestKnown, pn, n) && r != pn {
      if InWindow(largestKnown, r, n) {
        CloseAndCongruent(pn, r, win);
      } else {
        FloorBelow(pn, win);
      }
    } else if pn < win && pn > largestKnown + 1 + win / 2 && r != pn {
      CloseAndCongruent(r, pn, win);
    }
  }

  /** A number is either its own remainder or at least the modulus above it. */
  lemma FloorBelow(pn: nat, win: nat)
    requires win > 0
    ensures Mod(pn, win) == pn || Mod(pn, win) + win <= pn
  {
    InBlock(pn, 0, win);
  }

  /** The code agrees with appendix A.3 of RFC 9000 exactly when the appendix's guard against
      leaving the 62-bit range does not fire; the different second test never matters. */
  lemma DecodeIsAppendixA3(largestKnown: nat, t: nat, n: nat)
    requires 1 <= n <= 4 && t < Pow256(n)
    ensures DecodePacketNumber(largestKnown, t, n) == SampleDecode(largestKnown, t, n)
            <==> (var expected, win := largestKnown + 1, Pow256(n);
                  var c := Floor(expected, win) + t;
                  !(c + win / 2 <= expected && c >= 0x4000_0000_0000_0000 - win))
  {
    hide Mod, Floor, Pow256;
    var expected, win := largestKnown + 1, Pow256(n);
    PowEven(n);
    InBlock(expected, t, win);
  }

  /** Long-header packet numbers are decoded against zero: every number that fits comes back. */
  lemma DecodeAgainstZero(pn: nat, n: nat)
    requires 1 <= n <= 4
    ensures DecodePacketNumber(0, Mod(pn, Pow256(n)), n) == pn <==> pn < Pow256(n)
  {
    hide Mod, Pow256, DecodePacketNumber;
    PowEven(n);
    DecodeInverts(0, pn, n);
  }

  // ------------------------------------------------------------ long headers

  /** The headers that can come back from the wire. */
  predicate Readable(h: LongHeader)
  {
    && |h.dstCid| <= MAX_CID_LEN && |h.srcCid| <= MAX_CID_LEN
    && (h.ty.VersionNegotiation? <==> h.version == 0)
    && (h.token.Some? <==> h.ty.Initial?)
    && (h.length.Some? <==> !h.ty.Retry? && !h.ty.VersionNegotiation?)
    && (h.pnLen.Some? <==> h.length.Some?)
    && PnLenOk(h.pnLen)
  }

  /** The writer can encode the header's integers. */
  predicate Encodable(h: LongHeader)
  {
    && (h.token.Some? ==> |h.token.value| <= VarInt.VARINT_MAX)
    && (h.length.Some? ==> h.length.value <= VarInt.VARINT_MAX)
    && PnLenByte(h.pnLen)
  }

  lemma TakeEnc(v: nat, t: Data)
    requires v <= VarInt.VARINT_MAX
    ensures TakeVarint(VarInt.Enc(v) + t) == Ok((v, t))
  {
    VarInt.RoundTrip(v, t);
    assert (VarInt.Enc(v) + t)[VarInt.EncodedLen(v)..] == t;
  }

  lemma TakeRaw(d: Data, t: Data)
    ensures TakeFixed(d + t, |d|) == Ok((d, t))
  {
    assert (d + t)[..|d|] == d && (d + t)[|d|..] == t;
  }

  lemma TakeCidWire(cid: Data, t: Data)
    requires |cid| <= MAX_CID_LEN
    ensures TakeCid(CidWire(cid, t)) == Ok((cid, t))
    ensures forall after :: 0 <= after <= |t| ==> TakeAnyCid(CidWire(cid, t), after) == Ok((cid, t))
  {
    hide TakeFixed;
    assert CidWire(cid, t)[1..] == cid + t;
    TakeRaw(cid, t);
  }

  /** Length and packet number read back from what follows the token. */
  lemma NumberBack(h: LongHeader, pnLen: nat, length: nat, tail: Data)
    requires length <= VarInt.VARINT_MAX && pnLen <= |tail|
    ensures NumberAt(h, pnLen, VarInt.Enc(length) + tail)
         == Ok((h.(length := Some(length), truncatedPn := Some(ReadPn(tail[..pnLen])),
                   pnLen := Some(pnLen)), tail[pnLen..]))
  {
    hide TakeVarint, VarInt.Enc, ReadPn;
    TakeEnc(length, tail);
  }

  /** What follows the version reads back, with any packet-number bytes in place. */
  lemma TypedBack(h: LongHeader, pnLen: nat, tail: Data)
    requires Readable(h) && Encodable(h) && h.length.Some? && 1 <= pnLen <= 4 && pnLen <= |tail|
    ensures TypedAt(h.ty, h.version, pnLen, LongMiddle(h, tail)[4..])
         == Ok((h.(truncatedPn := Some(ReadPn(tail[..pnLen])), pnLen := Some(pnLen)),
                tail[pnLen..]))
  {
    hide TakeVarint, TakeFixed, TakeCid, VarInt.Enc, ReadPn, NumberAt, CidWire, BigEndian;
    var s3 := LengthWire(h.length, tail);
    var s2 := TokenWire(h.token, s3);
    var s1 := CidWire(h.srcCid, s2);
    assert LongMiddle(h, tail)[4..] == CidWire(h.dstCid, s1);
    TakeCidWire(h.dstCid, s1);
    TakeCidWire(h.srcCid, s2);
    var bare := LongHeader(h.ty, h.version, h.dstCid, h.srcCid, None, None, None, None);
    NumberBack(bare.(token := h.token), pnLen, h.length.value, tail);
    if h.ty == Initial {
      TakeEnc(|h.token.value|, h.token.value + s3);
      TakeRaw(h.token.value, s3);
    }
  }

  /** The version is the number of the four bytes it is written as. */
  lemma VersionBack(v: U32, t: Data)
    ensures var s := BigEndian(v, 4) + t;
            Be4(s[0], s[1], s[2], s[3]) == v && s[4..] == t
  {
    var b := BigEndian(v, 4);
    ReadTruncated(v, 4);
    InBlock(v, 0, Pow256(4));
    assert Pow256(4) == 0x1_0000_0000;
    assert ReadPn(b) == Be4(b[0], b[1], b[2], b[3]);
  }

  /** A numbered long header is read back whatever its four low bits became, as long as that
      many packet-number bytes follow: this is how a receiver sees it under protection. */
  lemma LongHeaderBack(h: LongHeader, first: Byte, tail: Data)
    requires Readable(h) && Encodable(h) && h.length.Some?
    requires first / 16 == LongFirst(h) / 16 && first % 4 + 1 <= |tail|
    ensures var pnLen := first % 4 + 1;
            LongHeaderAt([first] + LongMiddle(h, tail))
            == Ok((h.(truncatedPn := Some(ReadPn(tail[..pnLen])), pnLen := Some(pnLen)),
                   tail[pnLen..]))
  {
    hide TypedAt, ReadPn, BigEndian, Be4, CidWire, TokenWire, LengthWire;
    var rest := CidWire(h.dstCid, CidWire(h.srcCid, TokenWire(h.token, LengthWire(h.length, tail))));
    var s := [first] + LongMiddle(h, tail);
    VersionBack(h.version, rest);
    FirstBits(h, first);
    assert s[1..] == LongMiddle(h, tail);
    assert s[5..] == rest;
    TypedBack(h, first % 4 + 1, tail);
  }

  lemma FirstBits(h: LongHeader, first: Byte)
    requires PnLenOk(h.pnLen) && first / 16 == LongFirst(h) / 16
    ensures first >= 0x80 && first / 64 % 2 == 1 && first / 16 % 4 == ToBits(h.ty)
  {
    assert LongFirst(h) / 16 == 12 + ToBits(h.ty);
  }

  /** Retry and Version Negotiation headers end at the connection IDs. */
  lemma UnnumberedBack(h: LongHeader, tail: Data)
    requires Readable(h) && h.length.None?
    ensures LongHeaderAt([LongFirst(h)] + LongMiddle(h, tail))
         == Ok((h.(truncatedPn := None), tail))
  {
    hide TakeFixed, TakeCid, TakeAnyCid, BigEndian, Be4, CidWire;
    var s1 := CidWire(h.srcCid, tail);
    var rest := CidWire(h.dstCid, s1);
    var s := [LongFirst(h)] + LongMiddle(h, tail);
    VersionBack(h.version, rest);
    FirstBits(h, LongFirst(h));
    assert s[1..] == LongMiddle(h, tail);
    assert s[5..] == rest;
    assert |s1| >= 1 by {
      assert |s1| == 1 + |h.srcCid| + |tail| by { hide *; CidWireLen(h.srcCid, tail); }
    }
    TakeCidWire(h.dstCid, s1);
    TakeCidWire(h.srcCid, tail);
  }

  lemma CidWireLen(cid: Data, t: Data)
    ensures |CidWire(cid, t)| == 1 + |cid| + |t|
  {
  }

  /** Every header the parser returns is readable in the sense above. */
  lemma LongHeaderImage(s: Data)
    requires LongHeaderAt(s).Ok?
    ensures Readable(LongHeaderAt(s).value.0)
  {
    hide TakeVarint, TakeFixed, TakeCid, TakeAnyCid, ReadPn;
  }

  lemma LongMiddleTail(h: LongHeader, t: Data, u: Data)
    ensures LongMiddle(h, t + u) == LongMiddle(h, t) + u
  {
    hide VarInt.Enc, BigEndian;
  }

  /** The header that the packet builders seal is the one `write_long_header` writes, with its
      placeholder overwritten by the packet number. */
  lemma HeaderWritersAgree(h: LongHeader, pn: nat)
    requires PnLenByte(h.pnLen) && h.pnLen.Some?
    ensures var written, n := LongWire(h), h.pnLen.value;
            && |written| >= n && written[|written| - n..] == Zeros(n)
            && [LongFirst(h)] + (LongMiddle(h, []) + BigEndian(pn, n))
               == written[..|written| - n] + BigEndian(pn, n)
  {
    hide LongMiddle, LongFirst, BigEndian;
    var n := h.pnLen.value;
    LongMiddleTail(h, [], Zeros(n));
    assert [] + Zeros(n) == Zeros(n);
    var written := LongWire(h);
    assert written == [LongFirst(h)] + LongMiddle(h, []) + Zeros(n);
    assert written[..|written| - n] == [LongFirst(h)] + LongMiddle(h, []);
  }

  function Placeholder(h: LongHeader): LongHeader
  {
    h.(truncatedPn := if h.pnLen.Some? then Some(0) else None)
  }

  /** `parse_long_header` inverts `write_long_header`, up to the zeroed packet number and
      whatever follows, exactly on the readable headers. */
  lemma LongHeaderRoundTrip(h: LongHeader, t: Data)
    requires Encodable(h)
    ensures LongHeaderAt(LongWire(h) + t) == Ok((Placeholder(h), t)) <==> Readable(h)
  {
    hide LongHeaderAt, LongMiddle, LongFirst;
    var pn := Zeros(if h.pnLen.Some? then h.pnLen.value else 0);
    LongMiddleTail(h, pn, t);
    assert LongWire(h) + t == [LongFirst(h)] + LongMiddle(h, pn + t);
    if Readable(h) {
      if h.length.Some? {
        assert LongFirst(h) % 4 + 1 == |pn| by { PnBits(h); }
        LongHeaderBack(h, LongFirst(h), pn + t);
        assert (pn + t)[..|pn|] == pn && (pn + t)[|pn|..] == t;
        ZerosValue(|pn|);
      } else {
        assert pn + t == t;
        UnnumberedBack(h, t);
      }
    } else if LongHeaderAt(LongWire(h) + t) == Ok((Placeholder(h), t)) {
      LongHeaderImage(LongWire(h) + t);
    }
  }

  lemma PnBits(h: LongHeader)
    requires PnLenOk(h.pnLen) && h.pnLen.Some?
    ensures LongFirst(h) % 4 + 1 == h.pnLen.value
  {
  }

  lemma {:induction false} ZerosValue(n: nat)
    ensures Value(Zeros(n)) == 0
  {
    if n > 0 {
      ZerosValue(n - 1);
      assert Zeros(n)[..n - 1] == Zeros(n - 1);
    }
  }

  // ------------------------------------------------------------ short headers

  /** `parse_short_header` inverts `write_short_header` exactly for lengths one to three: four
      is written over the key-phase bit and leaves the length bits zero, which is refused, and so
      does zero; higher lengths cannot be announced. */
  lemma ShortHeaderRoundTrip(h: ShortHeader, t: Data)
    requires h.pnLen <= 255 && |h.dstCid| <= MAX_CID_LEN
    ensures ShortHeaderAt(ShortWire(h) + t, |h.dstCid|) == Ok((h.(truncatedPn := 0), t))
            <==> 1 <= h.pnLen <= 3
    ensures h.pnLen == 0 || h.pnLen == 4 ==>
              ShortHeaderAt(ShortWire(h) + t, |h.dstCid|) == Err(ReservedBitsSet)
  {
    hide TakeFixed, ReadPn, Zeros, OrByte;
    if h.pnLen <= 4 {
      var pn := Zeros(h.pnLen);
      assert (ShortWire(h) + t)[1..] == h.dstCid + (pn + t);
      TakeRaw(h.dstCid, pn + t);
      TakeRaw(pn, t);
      ZerosValue(h.pnLen);
      ShortBits(h);
    } else {
      if ShortHeaderAt(ShortWire(h) + t, |h.dstCid|).Ok? {
        ShortHeaderImage(ShortWire(h) + t, |h.dstCid|);
      }
    }
  }

  /** Every short header that is parsed has a packet-number length of one to three. */
  lemma ShortHeaderImage(s: Data, cidLen: nat)
    requires ShortHeaderAt(s, cidLen).Ok?
    ensures 1 <= ShortHeaderAt(s, cidLen).value.0.pnLen <= 3
    ensures |ShortHeaderAt(s, cidLen).value.0.dstCid| == cidLen
  {
    hide TakeFixed, ReadPn;
  }

  lemma ShortBits(h: ShortHeader)
    requires h.pnLen <= 4
    ensures var b := ShortFirst(h);
            && b < 0x80 && b / 64 % 2 == 1 && b / 8 % 4 == 0 && b % 4 == h.pnLen % 4
            && (b / 32 % 2 == 1 <==> h.spin) && (b / 4 % 2 == 1 <==> h.keyPhase || h.pnLen == 4)
  {
  }
}
