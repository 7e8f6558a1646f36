/**
 Bytes as bounded integers, big-endian values, exclusive-or bit by bit, and the
 growable byte buffer that the writers append to.
 */
module Bytes {

  type Byte = b: int | 0 <= b < 256
  type Data = seq<Byte>

  function Zeros(n: nat): (s: Data)
    ensures |s| == n && forall i :: 0 <= i < n ==> s[i] == 0
  {
    seq(n, _ => 0)
  }

  /** `v >> 8*k` on an unsigned integer. */
  function Shr8(v: nat, k: nat): nat
  {
    if k == 0 then v else Shr8(v / 256, k - 1)
  }

  /** `(v >> 8*k) as u8`. */
  function ByteAt(v: nat, k: nat): Byte
  {
    Shr8(v, k) % 256
  }

  /** The low `k` bytes of `v`, most significant first. */
  function BigEndian(v: nat, k: nat): (s: Data)
    ensures |s| == k
  {
    if k == 0 then [] else BigEndian(v / 256, k - 1) + [v % 256]
  }

  function Be2(a: int, b: int): int
  {
    a * 0x100 + b
  }

  function Be4(a: int, b: int, c: int, d: int): int
  {
    a * 0x100_0000 + b * 0x1_0000 + c * 0x100 + d
  }

  function Be8(a: int, b: int, c: int, d: int, e: int, f: int, g: int, h: int): int
  {
    Be4(a, b, c, d) * 0x1_0000_0000 + Be4(e, f, g, h)
  }

  function Value(s: Data): nat
  {
    if s == [] then 0 else Value(s[..|s| - 1]) * 256 + s[|s| - 1]
  }

  function Pow256(k: nat): (p: nat)
    ensures p > 0
  {
    if k == 0 then 1 else 256 * Pow256(k - 1)
  }

  /** Writing `k` bytes keeps exactly the value modulo `256^k`. */
  lemma {:induction false} ValueOfBigEndian(v: nat, k: nat)
    ensures Value(BigEndian(v, k)) == v % Pow256(k)
  {
    if k > 0 {
      ValueOfBigEndian(v / 256, k - 1);
      assert BigEndian(v, k)[..k - 1] == BigEndian(v / 256, k - 1);
      DivMod(v, Pow256(k - 1));
    }
  }

  lemma DivMod(v: nat, p: nat)
    requires p > 0
    ensures (v / 256) % p * 256 + v % 256 == v % (256 * p)
  {
    var q, r := v / 256 / p, (v / 256) % p;
    assert v == 256 * (q * p + r) + v % 256;
    assert 256 * (q * p) == q * (256 * p);
    var low := r * 256 + v % 256;
    assert v == q * (256 * p) + low;
    assert 0 <= low < 256 * p;
    UniqueRemainder(v, 256 * p, q, low);
  }

  lemma UniqueRemainder(v: int, m: int, q: int, r: int)
    requires m > 0 && v == q * m + r && 0 <= r < m
    ensures v % m == r && v / m == q
  {
    var d := v / m - q;
    assert d * m == r - v % m;
    assert d > 0 ==> d * m >= m;
    assert d < 0 ==> d * m <= -m;
  }

  /** Remainder by a modulus that is not a literal. */
  function Mod(x: nat, m: nat): (r: nat)
    requires m > 0
    ensures r < m && r <= x
  {
    assert x == x / m * m + x % m;
    assert x / m * m >= 0;
    x % m
  }

  /** `x & !(m - 1)` for a power of two `m`: the start of the block of `m` that holds `x`. */
  function Floor(x: nat, m: nat): (f: nat)
    requires m > 0
    ensures f <= x < f + m
  {
    x - Mod(x, m)
  }

  lemma MulGap(k: int, m: nat)
    ensures k >= 1 ==> k * m >= m
    ensures k <= -1 ==> k * m + m <= 0
    ensures k == 0 ==> k * m == 0
  {
  }

  /** Numbers that agree modulo `m` and are closer than `m` are equal. */
  lemma CloseAndCongruent(a: nat, b: nat, m: nat)
    requires m > 0 && Mod(a, m) == Mod(b, m) && a < b + m && b < a + m
    ensures a == b
  {
    var p, q := a / m, b / m;
    assert a == p * m + a % m && b == q * m + b % m;
    assert p * m - q * m == (p - q) * m;
    MulGap(p - q, m);
  }

  lemma ShiftByModulus(x: nat, m: nat)
    requires m > 0
    ensures Mod(x + m, m) == Mod(x, m)
    ensures x >= m ==> Mod(x - m, m) == Mod(x, m)
  {
    var q, r := x / m, x % m;
    assert x == q * m + r;
    assert (q + 1) * m == q * m + m && (q - 1) * m == q * m - m;
    UniqueRemainder(x + m, m, q + 1, r);
    if x >= m {
      UniqueRemainder(x - m, m, q - 1, r);
    }
  }

  /** Adding less than `m` to the start of a block stays in the block; blocks start at 0, or
      at `m`, or beyond. */
  lemma InBlock(x: nat, t: nat, m: nat)
    requires m > 0 && t < m
    ensures Mod(Floor(x, m) + t, m) == t
    ensures Floor(x, m) == 0 || Floor(x, m) >= m
    ensures x < m ==> Mod(x, m) == x
  {
    var q := x / m;
    assert x == q * m + x % m;
    assert Floor(x, m) == q * m;
    UniqueRemainder(q * m + t, m, q, t);
    MulGap(q, m);
    if x < m {
      UniqueRemainder(x, m, 0, x);
    }
  }

  lemma {:induction false} ValueBound(s: Data)
    ensures Value(s) < Pow256(|s|)
  {
    if s != [] {
      ValueBound(s[..|s| - 1]);
    }
  }

  // ---------------------------------------------------------------- exclusive or

  /** Exclusive or of the low `n` bits of `a` and `b`. */
  function XorBits(a: nat, b: nat, n: nat): (x: nat)
  {
    if n == 0 then 0 else (a + b) % 2 + 2 * XorBits(a / 2, b / 2, n - 1)
  }

  function Pow2(n: nat): (p: nat)
    ensures p > 0
  {
    if n == 0 then 1 else 2 * Pow2(n - 1)
  }

  lemma {:induction false} XorBound(a: nat, b: nat, n: nat)
    ensures XorBits(a, b, n) < Pow2(n)
  {
    if n > 0 {
      XorBound(a / 2, b / 2, n - 1);
    }
  }

  function Xor(a: Byte, b: Byte): Byte
  {
    XorBound(a, b, 8);
    assert Pow2(8) == 256;
    XorBits(a, b, 8)
  }

  lemma XorStep(a: nat, b: nat, n: nat)
    requires n > 0
    ensures var x := XorBits(a, b, n);
            x / 2 == XorBits(a / 2, b / 2, n - 1) && x % 2 == (a + b) % 2
  {
  }

  lemma SumParity(a: nat, b: nat)
    ensures (a + b) % 2 == if a % 2 == b % 2 then 0 else 1
  {
  }

  lemma {:induction false} XorBitsTwice(a: nat, b: nat, n: nat)
    requires a < Pow2(n)
    ensures XorBits(XorBits(a, b, n), b, n) == a
  {
    if n > 0 {
      XorBitsTwice(a / 2, b / 2, n - 1);
      var x := XorBits(a, b, n);
      XorStep(a, b, n);
      XorStep(x, b, n);
      hide XorBits, Pow2;
      SumParity(a, b);
      SumParity(x, b);
    }
  }

  /** Exclusive or with the same byte twice gives the byte back. */
  lemma XorTwice(a: Byte, b: Byte)
    ensures Xor(Xor(a, b), b) == a
  {
    assert Pow2(8) == 256;
    XorBitsTwice(a, b, 8);
  }

  /** `a >> k`. */
  function Shr(a: nat, k: nat): nat
  {
    if k == 0 then a else Shr(a / 2, k - 1)
  }

  /** Shifting an exclusive or shifts both operands. */
  lemma {:induction false} HalveXor(a: nat, b: nat, n: nat, k: nat)
    requires k <= n
    ensures Shr(XorBits(a, b, n), k) == XorBits(Shr(a, k), Shr(b, k), n - k)
  {
    if k > 0 {
      HalveXor(a / 2, b / 2, n - 1, k - 1);
      assert XorBits(a, b, n) / 2 == XorBits(a / 2, b / 2, n - 1);
    }
  }

  /** Exclusive or, bit by bit. */
  lemma XorBitwise(a: Byte, b: Byte, k: nat)
    requires k < 8
    ensures Shr(Xor(a, b), k) % 2 == (Shr(a, k) + Shr(b, k)) % 2
  {
    hide Shr;
    HalveXor(a, b, 8, k);
    XorStep(Shr(a, k), Shr(b, k), 8 - k);
  }

  lemma {:induction false} HalveBound(a: nat, n: nat, k: nat)
    requires a < Pow2(n)
    ensures k <= n ==> Shr(a, k) < Pow2(n - k)
    ensures k >= n ==> Shr(a, k) == 0
  {
    if k > 0 {
      if n > 0 {
        HalveBound(a / 2, n - 1, k - 1);
      } else {
        HalveBound(a / 2, 0, k - 1);
      }
    }
  }

  lemma {:induction false} XorBitsZero(a: nat, n: nat)
    requires a < Pow2(n)
    ensures XorBits(a, 0, n) == a
  {
    if n > 0 {
      XorBitsZero(a / 2, n - 1);
    }
  }

  /** A mask of four (five) low bits leaves the upper bits of a byte alone. */
  lemma XorKeepsHigh(a: Byte, m: Byte)
    ensures m < 16 ==> Xor(a, m) / 16 == a / 16
    ensures m < 32 ==> Xor(a, m) / 32 == a / 32
  {
    assert Pow2(8) == 256 && Pow2(4) == 16 && Pow2(5) == 32 && Pow2(3) == 8;
    HalveIsShift(a);
    HalveIsShift(Xor(a, m));
    HalveXor(a, m, 8, 4);
    HalveXor(a, m, 8, 5);
    if m < 16 {
      HalveBound(m, 4, 4);
      HalveBound(a, 8, 4);
      XorBitsZero(Shr(a, 4), 4);
    }
    if m < 32 {
      HalveBound(m, 5, 5);
      HalveBound(a, 8, 5);
      XorBitsZero(Shr(a, 5), 3);
    }
  }

  lemma HalveIsShift(a: Byte)
    ensures Shr(a, 3) == a / 8 && Shr(a, 4) == a / 16 && Shr(a, 5) == a / 32
  {
    var b, c, d, e: nat := a / 2, a / 4, a / 8, a / 16;
    assert Shr(e, 0) == e && Shr(e, 1) == e / 2;
    assert Shr(d, 0) == d && Shr(d, 1) == e && Shr(d, 2) == Shr(e, 1);
    assert Shr(c, 1) == d && Shr(c, 2) == e && Shr(c, 3) == Shr(d, 2);
    assert Shr(b, 2) == d && Shr(b, 3) == e && Shr(b, 4) == Shr(c, 3);
  }

  /** The low two bits of an exclusive or, from the low two bits of its operands. */
  lemma XorLowBits(a: nat, b: nat, n: nat)
    requires n >= 2
    ensures XorBits(a, b, n) % 4 == 0 <==> a % 4 == b % 4
    ensures a % 4 == 0 ==> XorBits(a, b, n) % 4 == b % 4
  {
    hide XorBits;
    var x := XorBits(a, b, n);
    XorStep(a, b, n);
    XorStep(a / 2, b / 2, n - 1);
    LowTwo(a);
    LowTwo(b);
    LowTwo(x);
    SumParity(a, b);
    SumParity(a / 2, b / 2);
  }

  lemma LowTwo(a: nat)
    ensures a % 4 == a % 2 + 2 * (a / 2 % 2)
  {
  }

  /** Bits 3 and 4 of a byte that has them clear become those of the mask; bits 0 and 1 are
      cleared exactly by a mask that agrees with them. */
  lemma XorFields(a: Byte, m: Byte)
    requires a / 8 % 4 == 0
    ensures Xor(a, m) / 8 % 4 == m / 8 % 4
    ensures Xor(a, m) % 4 == 0 <==> a % 4 == m % 4
  {
    hide Shr, XorBits;
    HalveXor(a, m, 8, 3);
    HalveIsShift(a);
    HalveIsShift(m);
    HalveIsShift(Xor(a, m));
    XorLowBits(a / 8, m / 8, 5);
    XorLowBits(a, m, 8);
  }

  // ---------------------------------------------------------------- or

  function Bit(on: bool): nat
  {
    if on then 1 else 0
  }

  function Or(a: nat, b: nat): nat
  {
    if a == 0 then b else Bit(a % 2 == 1 || b % 2 == 1) + 2 * Or(a / 2, b / 2)
  }

  lemma {:induction false} OrBound(a: nat, b: nat, n: nat)
    requires a < Pow2(n) && b < Pow2(n)
    ensures Or(a, b) < Pow2(n)
  {
    if n > 0 {
      OrBound(a / 2, b / 2, n - 1);
    }
  }

  function OrByte(a: Byte, b: Byte): Byte
  {
    assert Pow2(8) == 256;
    OrBound(a, b, 8);
    Or(a, b)
  }

  // ---------------------------------------------------------------- buffer

  /** Overwrites `buf[at..at + |s|]` with `s`. */
  method Store(buf: array<Byte>, at: nat, s: Data)
    requires at + |s| <= buf.Length
    modifies buf
    ensures buf[..] == old(buf[..at]) + s + old(buf[at + |s|..])
  {
    for i := 0 to |s|
      invariant buf[..at] == old(buf[..at])
      invariant buf[at..at + i] == s[..i]
      invariant buf[at + i..] == old(buf[at + i..])
    {
      buf[at + i] := s[i];
    }
  }

  /** A growable byte buffer: the `BufMut` the writers append to. */
  class Buffer {
    var bytes: Data

    constructor ()
      ensures bytes == []
    {
      bytes := [];
    }

    method PutU8(b: Byte)
      modifies this
      ensures bytes == old(bytes) + [b]
    {
      bytes := bytes + [b];
    }

    method PutSlice(s: Data)
      modifies this
      ensures bytes == old(bytes) + s
    {
      bytes := bytes + s;
    }

    /** Appends zero bytes one at a time until the buffer is `n` long. */
    method PadTo(n: nat)
      modifies this
      ensures bytes == old(bytes) + Zeros(if n > |old(bytes)| then n - |old(bytes)| else 0)
    {
      ghost var before := bytes;
      while |bytes| < n
        invariant |before| <= |bytes| <= (if n > |before| then n else |before|)
        invariant bytes == before + Zeros(|bytes| - |before|)
      {
        bytes := bytes + [0];
      }
    }
  }

  /** Appends `s`. `tail` is what has yet to be written for the buffer to hold `goal`. */
  method PutToward(buf: Buffer, s: Data, ghost tail: Data, ghost goal: Data)
    requires buf.bytes + (s + tail) == goal
    modifies buf
    ensures buf.bytes + tail == goal
  {
    assert buf.bytes + (s + tail) == buf.bytes + s + tail;
    buf.PutSlice(s);
  }
}
