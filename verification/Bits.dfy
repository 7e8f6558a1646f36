/**
 The shifts and masks of the source, bit by bit, and the base-256 arithmetic that the other
 modules use in their place.
 */
module Bits {
  import opened Wrappers
  import opened Bytes
  import opened Packets
  import VarInt

  function And(a: nat, b: nat): nat
  {
    if a == 0 then 0 else Bit(a % 2 == 1 && b % 2 == 1) + 2 * And(a / 2, b / 2)
  }

  /** `a & !b`. */
  function AndNot(a: nat, b: nat): nat
  {
    if a == 0 then 0 else Bit(a % 2 == 1 && b % 2 == 0) + 2 * AndNot(a / 2, b / 2)
  }

  function Shl(a: nat, k: nat): nat
  {
    if k == 0 then a else 2 * Shl(a, k - 1)
  }

  // ------------------------------------------------------------ what the operators compute

  lemma {:induction false} ShlMultiplies(a: nat, k: nat)
    ensures Shl(a, k) == a * Pow2(k)
  {
    if k > 0 {
      ShlMultiplies(a, k - 1);
      DoubleRight(a, Pow2(k - 1));
    }
  }

  lemma DoubleRight(a: nat, p: nat)
    ensures 2 * (a * p) == a * (2 * p)
  {
  }

  lemma {:induction false} ShrDivides(a: nat, k: nat)
    ensures Shr(a, k) == a / Pow2(k)
  {
    if k > 0 {
      ShrDivides(a / 2, k - 1);
      HalfFirst(a, Pow2(k - 1));
    }
  }

  lemma HalfFirst(a: nat, p: nat)
    requires p > 0
    ensures a / 2 / p == a / (2 * p) && a % (2 * p) == a % 2 + 2 * (a / 2 % p)
  {
    var q, r := a / 2 / p, a / 2 % p;
    assert a / 2 == q * p + r;
    assert 2 * (q * p) == q * (2 * p);
    UniqueRemainder(a, 2 * p, q, a % 2 + 2 * r);
  }

  /** A mask of `k` ones takes the remainder. */
  lemma {:induction false} MaskTakesRemainder(a: nat, k: nat)
    ensures And(a, Pow2(k) - 1) == a % Pow2(k)
  {
    if k == 0 {
      AndZero(a);
    } else {
      MaskTakesRemainder(a / 2, k - 1);
      MaskStep(a, Pow2(k - 1));
    }
  }

  lemma MaskStep(a: nat, p: nat)
    requires p > 0 && And(a / 2, p - 1) == a / 2 % p
    ensures And(a, 2 * p - 1) == a % (2 * p)
  {
    hide And;
    HalfFirst(a, p);
    OddMask(a, p - 1);
  }

  lemma OddMask(a: nat, m: nat)
    ensures And(a, 2 * m + 1) == a % 2 + 2 * And(a / 2, m)
  {
    assert (2 * m + 1) / 2 == m && (2 * m + 1) % 2 == 1;
  }

  lemma {:induction false} AndZero(a: nat)
    ensures And(a, 0) == 0
  {
    if a > 0 {
      AndZero(a / 2);
    }
  }

  /** The inverted mask takes the rest: the start of a block of `2^k`. */
  lemma {:induction false} InvertedMaskFloors(a: nat, k: nat)
    ensures AndNot(a, Pow2(k) - 1) == a - a % Pow2(k)
  {
    if k == 0 {
      AndNotZero(a);
    } else {
      InvertedMaskFloors(a / 2, k - 1);
      FloorStep(a, Pow2(k - 1));
    }
  }

  lemma FloorStep(a: nat, p: nat)
    requires p > 0 && AndNot(a / 2, p - 1) == a / 2 - a / 2 % p
    ensures AndNot(a, 2 * p - 1) == a - a % (2 * p)
  {
    hide AndNot;
    HalfFirst(a, p);
    OddClears(a, p - 1);
  }

  lemma OddClears(a: nat, m: nat)
    ensures AndNot(a, 2 * m + 1) == 2 * AndNot(a / 2, m)
  {
    assert (2 * m + 1) / 2 == m && (2 * m + 1) % 2 == 1;
  }

  lemma {:induction false} AndNotZero(a: nat)
    ensures AndNot(a, 0) == a
  {
    if a > 0 {
      AndNotZero(a / 2);
    }
  }

  /** Testing a single bit. */
  lemma {:induction false} SingleBit(a: nat, k: nat)
    ensures And(a, Pow2(k)) != 0 <==> a / Pow2(k) % 2 == 1
  {
    if k == 0 {
      if a > 0 {
        AndZero(a / 2);
      }
    } else {
      SingleBit(a / 2, k - 1);
      BitStep(a, Pow2(k - 1));
    }
  }

  lemma BitStep(a: nat, p: nat)
    requires p > 0 && (And(a / 2, p) != 0 <==> a / 2 / p % 2 == 1)
    ensures And(a, 2 * p) != 0 <==> a / (2 * p) % 2 == 1
  {
    hide And;
    HalfFirst(a, p);
    EvenMask(a, p);
  }

  lemma EvenMask(a: nat, p: nat)
    ensures And(a, 2 * p) == 2 * And(a / 2, p)
  {
    assert 2 * p / 2 == p;
  }

  /** Setting bits below a shifted value adds them. */
  lemma {:induction false} OrAdds(a: nat, b: nat, k: nat)
    requires b < Pow2(k)
    ensures Or(a * Pow2(k), b) == a * Pow2(k) + b
  {
    if k == 0 {
      OrZero(a);
    } else if a > 0 {
      OrAdds(a, b / 2, k - 1);
      OrAddsStep(a, b, Pow2(k - 1));
    }
  }

  lemma OrAddsStep(a: nat, b: nat, p: nat)
    requires Or(a * p, b / 2) == a * p + b / 2
    ensures Or(a * (2 * p), b) == a * (2 * p) + b
  {
    hide Or;
    assert a * (2 * p) == 2 * (a * p);
    EvenOr(a * p, b);
  }

  lemma EvenOr(a: nat, b: nat)
    ensures Or(2 * a, b) == b % 2 + 2 * Or(a, b / 2)
  {
    assert 2 * a / 2 == a && 2 * a % 2 == 0;
  }

  lemma {:induction false} OrZero(a: nat)
    ensures Or(a, 0) == a
  {
    if a > 0 {
      OrZero(a / 2);
    }
  }

  /** One more byte of a big-endian number: `x << (k + 8) | b << k`. */
  lemma NextByte(x: nat, b: Byte, k: nat)
    ensures Or(x * Pow2(k + 8), Shl(b, k)) == (x * 256 + b) * Pow2(k)
  {
    hide Or, Shl, Pow2;
    var p := Pow2(k);
    EightMore(k);
    ShlMultiplies(b, k);
    MulLess(b, 256, p);
    OrAdds(x, b * p, k + 8);
    assert x * (256 * p) + b * p == (x * 256 + b) * p;
  }

  lemma EightMore(k: nat)
    ensures Pow2(k + 8) == 256 * Pow2(k)
  {
    var p := Pow2(k);
    assert Pow2(k + 1) == 2 * p && Pow2(k + 2) == 4 * p && Pow2(k + 3) == 8 * p;
    assert Pow2(k + 4) == 16 * p && Pow2(k + 5) == 32 * p && Pow2(k + 6) == 64 * p;
    assert Pow2(k + 7) == 128 * p && Pow2(k + 8) == 256 * p;
  }

  lemma MulLess(a: nat, b: nat, p: nat)
    requires a < b && p > 0
    ensures a * p < b * p
  {
  }

  lemma Powers()
    ensures Pow2(0) == 1 && Pow2(1) == 2 && Pow2(2) == 4 && Pow2(3) == 8 && Pow2(4) == 16
    ensures Pow2(5) == 32 && Pow2(6) == 64 && Pow2(7) == 128 && Pow2(8) == 256
  {
    assert Pow2(4) == 16;
    assert Pow2(8) == 16 * Pow2(4);
  }

  lemma {:induction false} ShrIsByteShift(v: nat, k: nat)
    ensures Shr(v, 8 * k) == Shr8(v, k)
  {
    if k > 0 {
      ShrAdds(v, 8, 8 * (k - 1));
      ShrDivides(v, 8);
      Powers();
      ShrIsByteShift(v / 256, k - 1);
    }
  }

  lemma {:induction false} ShrAdds(v: nat, j: nat, k: nat)
    ensures Shr(v, j + k) == Shr(Shr(v, j), k)
  {
    if j > 0 {
      ShrAdds(v / 2, j - 1, k);
    }
  }

  // ------------------------------------------------------------ varints

  /** `(v >> 8 * k) & 0xff`. */
  function MaskedByte(v: nat, k: nat): nat
  {
    And(Shr(v, 8 * k), 0xff)
  }

  lemma MaskedByteIs(v: nat, k: nat)
    ensures MaskedByte(v, k) == ByteAt(v, k)
  {
    hide And, Shr, Shr8, Pow2;
    Powers();
    ShrIsByteShift(v, k);
    MaskTakesRemainder(Shr8(v, k), 8);
  }

  /** The tag and the most significant byte: `tag << 6 | (v >> 8 * k) as u8`. */
  function Tagged(tag: nat, v: nat, k: nat): nat
  {
    Or(Shl(tag, 6), Shr(v, 8 * k) % 256)
  }

  lemma TaggedIs(tag: nat, v: nat, k: nat)
    requires Shr8(v, k) < 64
    ensures Tagged(tag, v, k) == tag * 64 + Shr8(v, k)
  {
    hide Or, Shl, Shr, Shr8, Pow2;
    Powers();
    ShrIsByteShift(v, k);
    ShlMultiplies(tag, 6);
    OrAdds(tag, Shr8(v, k), 6);
  }

  /** `encode` as it is written, with shifts and masks. */
  function EncodingBits(v: nat): seq<nat>
  {
    if v <= 63 then [v % 256]
    else if v <= 16383 then [Tagged(1, v, 1), MaskedByte(v, 0)]
    else if v <= 1073741823 then [Tagged(2, v, 3), MaskedByte(v, 2), MaskedByte(v, 1), MaskedByte(v, 0)]
    else [Tagged(3, v, 7), MaskedByte(v, 6), MaskedByte(v, 5), MaskedByte(v, 4),
          MaskedByte(v, 3), MaskedByte(v, 2), MaskedByte(v, 1), MaskedByte(v, 0)]
  }

  /** The shifts and masks of `encode` write the tagged base-256 digits. */
  lemma EncodingIsBase256(v: nat)
    requires v <= VarInt.VARINT_MAX
    ensures EncodingBits(v) == VarInt.Encoding(v)
  {
    hide Tagged, MaskedByte, Shr8;
    VarInt.ShrBound(v);
    forall k: nat ensures MaskedByte(v, k) == Shr8(v, k) % 256 {
      MaskedByteIs(v, k);
    }
    assert Shr8(v, 0) == v by { ShrNothing(v); }
    if 63 < v <= 16383 {
      TaggedIs(1, v, 1);
    } else if 16383 < v <= 1073741823 {
      TaggedIs(2, v, 3);
    } else if 1073741823 < v {
      TaggedIs(3, v, 7);
    }
  }

  lemma ShrNothing(v: nat)
    ensures Shr8(v, 0) == v
  {
  }

  /** `decode`'s value for `s`, with shifts and masks, the length already checked. */
  function DecodedBits(s: Data): nat
    requires |s| == 1 || |s| == 2 || |s| == 4 || |s| == 8
  {
    var low := And(s[0], 0x3f);
    if |s| == 1 then s[0]
    else if |s| == 2 then Or(Shl(low, 8), s[1])
    else if |s| == 4 then Or(Or(Or(Shl(low, 24), Shl(s[1], 16)), Shl(s[2], 8)), s[3])
    else
      Or(Or(Or(Or(Or(Or(Or(Shl(low, 56), Shl(s[1], 48)), Shl(s[2], 40)), Shl(s[3], 32)),
                  Shl(s[4], 24)), Shl(s[5], 16)), Shl(s[6], 8)), s[7])
  }

  function Grow(x: nat, b: Byte): nat
  {
    x * 256 + b
  }

  /** The shifts and masks of `decode` compute the base-256 number behind the tag, and the tag is
      the first byte shifted by six. */
  lemma DecodingIsBase256(buf: Data)
    requires VarInt.Decode(buf).Ok?
    ensures var (v, n) := VarInt.Decode(buf).value;
            && Shr(buf[0], 6) == buf[0] / 64 && n == VarInt.LengthOf(buf[0] / 64) && n <= |buf|
            && v == DecodedBits(buf[..n])
  {
    hide And, Or, Shl, Shr, Pow2;
    var first := buf[0];
    Powers();
    ShrDivides(first, 6);
    MaskTakesRemainder(first, 6);
    var low := first % 64;
    if first / 64 == 1 {
      ShlMultiplies(low, 8);
      OrAdds(low, buf[1], 8);
    } else if first / 64 == 2 {
      ShlMultiplies(low, 24);
      NextByte(low, buf[1], 16);
      NextByte(Grow(low, buf[1]), buf[2], 8);
      OrAdds(Grow(Grow(low, buf[1]), buf[2]), buf[3], 8);
    } else if first / 64 == 3 {
      ShlMultiplies(low, 56);
      var x1 := Grow(low, buf[1]);
      var x2 := Grow(x1, buf[2]);
      var x3 := Grow(x2, buf[3]);
      var x4 := Grow(x3, buf[4]);
      var x5 := Grow(x4, buf[5]);
      var x6 := Grow(x5, buf[6]);
      NextByte(low, buf[1], 48);
      NextByte(x1, buf[2], 40);
      NextByte(x2, buf[3], 32);
      NextByte(x3, buf[4], 24);
      NextByte(x4, buf[5], 16);
      NextByte(x5, buf[6], 8);
      OrAdds(x6, buf[7], 8);
    }
  }

  // ------------------------------------------------------------ headers

  /** The fields that the header parsers cut out of a first byte. */
  lemma FirstByteFields(first: Byte)
    ensures And(first, 0x80) == 0 <==> first < 0x80
    ensures And(first, 0x40) != 0 <==> first / 64 % 2 == 1
    ensures And(first, 0x20) != 0 <==> first / 32 % 2 == 1
    ensures And(first, 0x04) != 0 <==> first / 4 % 2 == 1
    ensures And(Shr(first, 4), 0x03) == first / 16 % 4
    ensures And(Shr(first, 3), 0x03) == first / 8 % 4
    ensures And(first, 0x03) == first % 4
    ensures And(first, 0x0f) == first % 16 && And(first, 0x1f) == first % 32
  {
    hide And, Shr, Pow2;
    Powers();
    SingleBit(first, 7);
    SingleBit(first, 6);
    SingleBit(first, 5);
    SingleBit(first, 2);
    ShrDivides(first, 4);
    ShrDivides(first, 3);
    MaskTakesRemainder(first / 16, 2);
    MaskTakesRemainder(first / 8, 2);
    MaskTakesRemainder(first, 2);
    MaskTakesRemainder(first, 4);
    MaskTakesRemainder(first, 5);
  }

  /** The first byte of a long header, from its fields. */
  lemma LongFirstBits(h: LongHeader)
    requires PnLenByte(h.pnLen)
    ensures LongFirst(h) == Or(Or(Or(0x80, 0x40), Shl(ToBits(h.ty), 4)),
                               if h.pnLen.Some? then h.pnLen.value - 1 else 0)
  {
    hide Or, Shl, Pow2;
    var bits, low := ToBits(h.ty), if h.pnLen.Some? then h.pnLen.value - 1 else 0;
    Powers();
    ShlMultiplies(bits, 4);
    OrAdds(1, 0x40, 7);
    OrAdds(3, bits * 16, 6);
    if low < 16 {
      OrAdds(12 + bits, low, 4);
    }
  }

  /** The first byte of a short header; a length of four lands on the key-phase bit. */
  lemma ShortFirstBits(h: ShortHeader)
    requires h.pnLen <= 255
    ensures ShortFirst(h) == Or(Or(Or(0x40, if h.spin then 0x20 else 0),
                                   if h.keyPhase then 0x04 else 0), h.pnLen)
  {
    hide Or, Pow2;
    Powers();
    var spin := if h.spin then 0x20 else 0;
    OrAdds(1, spin, 6);
    OrAdds((0x40 + spin) / 8, if h.keyPhase then 4 else 0, 3);
    if h.pnLen == 4 {
      OrFour((0x40 + spin) / 8, h.keyPhase);
    } else if h.pnLen < 4 {
      OrAdds((0x40 + spin) / 4 + (if h.keyPhase then 1 else 0), h.pnLen, 2);
    }
  }

  lemma OrFour(a: nat, on: bool)
    ensures Or(a * 8 + (if on then 4 else 0), 4) == a * 8 + 4
  {
    Powers();
    OrAdds(a, 4, 3);
    if on {
      var x := a * 8 + 4;
      OrZero(a);
      assert x / 2 == a * 4 + 2 && x / 2 / 2 == a * 2 + 1 && x / 2 / 2 / 2 == a;
      assert Or(a * 2 + 1, 1) == 1 + 2 * Or(a, 0);
      assert Or(a * 4 + 2, 2) == 2 * Or(a * 2 + 1, 1);
    }
  }

  /** The candidate that `decode_packet_number` starts from: `(expected & !mask) | truncated`. */
  lemma CandidateBits(expected: nat, truncated: nat, n: nat)
    requires truncated < Pow256(n)
    ensures Shl(1, 8 * n) == Pow256(n)
    ensures Or(AndNot(expected, Shl(1, 8 * n) - 1), truncated) == Floor(expected, Pow256(n)) + truncated
  {
    hide Or, AndNot, Shl;
    var win := Pow256(n);
    ShlMultiplies(1, 8 * n);
    WindowIsPower(n);
    InvertedMaskFloors(expected, 8 * n);
    var q := expected / win;
    assert expected == q * win + expected % win;
    OrAdds(q, truncated, 8 * n);
  }

  lemma {:induction false} WindowIsPower(n: nat)
    ensures Pow2(8 * n) == Pow256(n)
  {
    if n > 0 {
      WindowIsPower(n - 1);
      EightMore(8 * (n - 1));
    }
  }
}
