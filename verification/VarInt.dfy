/** Variable-length integers (section 16 of RFC 9000). */
module VarInt {
  import opened Wrappers
  import opened Bytes

  const VARINT_MAX: nat := 0x3fff_ffff_ffff_ffff

  datatype VarIntError =
    | BufferTooShort(needed: nat, actual: nat)
    | ValueTooLarge(value: nat)

  function EncodedLen(v: nat): (n: nat)
    ensures n == 1 || n == 2 || n == 4 || n == 8
  {
    if v <= 63 then 1
    else if v <= 16383 then 2
    else if v <= 1073741823 then 4
    else 8
  }

  /** The two-bit length tag: `LengthOf(tag)` bytes, of which the top two bits are the tag. */
  function LengthOf(tag: nat): (n: nat)
    requires tag < 4
  {
    if tag == 0 then 1 else if tag == 1 then 2 else if tag == 2 then 4 else 8
  }

  /** The bytes `encode` writes for `v`. */
  function Encoding(v: nat): (s: Data)
    requires v <= VARINT_MAX
    ensures |s| == EncodedLen(v)
  {
    ShrBound(v);
    if v <= 63 then [v]
    else if v <= 16383 then [0x40 + Shr8(v, 1), v % 256]
    else if v <= 1073741823 then
      [0x80 + Shr8(v, 3), Shr8(v, 2) % 256, Shr8(v, 1) % 256, v % 256]
    else
      [0xc0 + Shr8(v, 7), Shr8(v, 6) % 256, Shr8(v, 5) % 256, Shr8(v, 4) % 256,
       Shr8(v, 3) % 256, Shr8(v, 2) % 256, Shr8(v, 1) % 256, v % 256]
  }

  /** The top byte of a value that fits leaves the two tag bits free. */
  lemma ShrBound(v: nat)
    ensures v <= 16383 ==> Shr8(v, 1) < 64
    ensures v <= 1073741823 ==> Shr8(v, 3) < 64
    ensures v <= VARINT_MAX ==> Shr8(v, 7) < 64
  {
    ShrChain(v);
  }

  lemma ShrChain(v: nat)
    ensures Shr8(v, 1) == v / 256
    ensures Shr8(v, 2) == Shr8(v, 1) / 256
    ensures Shr8(v, 3) == Shr8(v, 2) / 256
    ensures Shr8(v, 4) == Shr8(v, 3) / 256
    ensures Shr8(v, 5) == Shr8(v, 4) / 256
    ensures Shr8(v, 6) == Shr8(v, 5) / 256
    ensures Shr8(v, 7) == Shr8(v, 6) / 256
  {
    ShrStep(v, 1);
    ShrStep(v, 2);
    ShrStep(v, 3);
    ShrStep(v, 4);
    ShrStep(v, 5);
    ShrStep(v, 6);
  }

  lemma {:induction false} ShrStep(v: nat, k: nat)
    ensures Shr8(v, k + 1) == Shr8(v, k) / 256
  {
    if k > 0 {
      ShrStep(v / 256, k - 1);
    }
  }

  /** The encoding of `v`; nothing for a value that has none. */
  function Enc(v: nat): Data
  {
    if v <= VARINT_MAX then Encoding(v) else []
  }

  /** Reads a varint from the front of `buf`: its value and the bytes consumed. */
  function Decode(buf: Data): (r: Result<(nat, nat), VarIntError>)
  {
    if buf == [] then Err(BufferTooShort(1, 0))
    else
      var first := buf[0];
      if first / 64 == 0 then Ok((first, 1))
      else if first / 64 == 1 then
        if |buf| < 2 then Err(BufferTooShort(2, |buf|))
        else Ok((Be2(first % 64, buf[1]), 2))
      else if first / 64 == 2 then
        if |buf| < 4 then Err(BufferTooShort(4, |buf|))
        else Ok((Be4(first % 64, buf[1], buf[2], buf[3]), 4))
      else
        if |buf| < 8 then Err(BufferTooShort(8, |buf|))
        else Ok((Be8(first % 64, buf[1], buf[2], buf[3], buf[4], buf[5], buf[6], buf[7]), 8))
  }

  /** What a decoded varint means: the tag gives the length, and the value is the
      big-endian number of those bytes without the tag; too few bytes is the only error. */
  lemma DecodeMeaning(buf: Data)
    ensures Decode(buf).Ok? <==> buf != [] && |buf| >= LengthOf(buf[0] / 64)
    ensures Decode(buf).Ok? ==>
              var (v, n) := Decode(buf).value;
              && n == LengthOf(buf[0] / 64) && n <= |buf| && v <= VARINT_MAX
              && Value(buf[..n]) == v + buf[0] / 64 * 64 * Pow256(n - 1)
  {
    if buf != [] && |buf| >= LengthOf(buf[0] / 64) {
      var n := LengthOf(buf[0] / 64);
      TaggedValue(buf[..n]);
    }
  }

  lemma TaggedValue(s: Data)
    requires s != [] && |s| == LengthOf(s[0] / 64)
    ensures Decode(s).Ok? && Decode(s).value.0 <= VARINT_MAX
    ensures Value(s) == Decode(s).value.0 + s[0] / 64 * 64 * Pow256(|s| - 1)
  {
    PowValues();
    var tag, low := s[0] / 64, s[0] % 64;
    assert s[0] == tag * 64 + low;
    if |s| == 1 {
      Value1(s);
    } else if |s| == 2 {
      Value2(s);
      assert Be2(s[0], s[1]) == tag * 64 * 0x100 + Be2(low, s[1]);
    } else if |s| == 4 {
      Value4(s);
      assert Be4(s[0], s[1], s[2], s[3]) == tag * 64 * 0x100_0000 + Be4(low, s[1], s[2], s[3]);
    } else {
      Value8(s);
      Value8Tagged(tag, low, s);
    }
  }

  lemma Value8Tagged(tag: nat, low: nat, s: Data)
    requires |s| == 8 && s[0] == tag * 64 + low && low < 64
    ensures Be8(s[0], s[1], s[2], s[3], s[4], s[5], s[6], s[7])
         == tag * 64 * 0x100_0000_0000_0000 + Be8(low, s[1], s[2], s[3], s[4], s[5], s[6], s[7])
    ensures Be8(low, s[1], s[2], s[3], s[4], s[5], s[6], s[7]) <= VARINT_MAX
  {
  }

  lemma PowValues()
    ensures Pow256(0) == 1 && Pow256(1) == 0x100 && Pow256(3) == 0x100_0000
    ensures Pow256(7) == 0x100_0000_0000_0000
  {
    assert Pow256(3) == 0x100_0000;
    assert Pow256(6) == 0x100_0000 * Pow256(3);
  }

  lemma Value1(s: Data)
    requires |s| >= 1
    ensures |s| == 1 ==> Value(s) == s[0]
  {
    if |s| == 1 {
      assert s[..0] == [];
    }
  }

  lemma Value2(s: Data)
    requires |s| >= 2
    ensures |s| == 2 ==> Value(s) == Be2(s[0], s[1])
  {
    if |s| == 2 {
      Value1(s[..1]);
    }
  }

  lemma Value4(s: Data)
    requires |s| >= 4
    ensures |s| == 4 ==> Value(s) == Be4(s[0], s[1], s[2], s[3])
  {
    if |s| == 4 {
      Value2(s[..2]);
      assert s[..3][..2] == s[..2];
    }
  }

  lemma Value8(s: Data)
    requires |s| == 8
    ensures Value(s) == Be8(s[0], s[1], s[2], s[3], s[4], s[5], s[6], s[7])
  {
    Value4(s[..4]);
    ValueStep(s, 4);
    ValueStep(s, 5);
    ValueStep(s, 6);
    ValueStep(s, 7);
    assert s[..8] == s;
  }

  lemma ValueStep(s: Data, i: nat)
    requires i < |s|
    ensures Value(s[..i + 1]) == Value(s[..i]) * 256 + s[i]
  {
    assert s[..i + 1][..i] == s[..i];
  }

  /** The shifted bytes are the base-256 digits of the value. */
  lemma Digits(v: nat)
    ensures Be2(Shr8(v, 1), v % 256) == v
    ensures Be4(Shr8(v, 3), Shr8(v, 2) % 256, Shr8(v, 1) % 256, v % 256) == v
    ensures Be8(Shr8(v, 7), Shr8(v, 6) % 256, Shr8(v, 5) % 256, Shr8(v, 4) % 256,
                Shr8(v, 3) % 256, Shr8(v, 2) % 256, Shr8(v, 1) % 256, v % 256) == v
  {
    ShrChain(v);
    hide Shr8;
  }

  /** `decode` inverts `encode`, whatever follows in the buffer. */
  lemma RoundTrip(v: nat, t: Data)
    requires v <= VARINT_MAX
    ensures Decode(Encoding(v) + t) == Ok((v, EncodedLen(v)))
  {
    ShrBound(v);
    Digits(v);
    hide Shr8, Be2, Be4, Be8;
    var e := Encoding(v);
    var b := e + t;
    assert b[0] == e[0];
    if v > 63 {
      assert b[1] == e[1];
    }
    if v > 16383 {
      assert b[2] == e[2] && b[3] == e[3];
    }
    if v > 1073741823 {
      assert b[4] == e[4] && b[5] == e[5] && b[6] == e[6] && b[7] == e[7];
    }
  }

  /** The four lengths as numbers: the tag stands in the top two bits, the value behind it. */
  lemma EncodingFormat(v: nat)
    requires v <= VARINT_MAX
    ensures v <= 63 ==> Encoding(v) == [v]
    ensures 63 < v <= 16383 ==> |Encoding(v)| == 2 && Value(Encoding(v)) == 0x4000 + v
    ensures 16383 < v <= 1073741823 ==> |Encoding(v)| == 4 && Value(Encoding(v)) == 0x8000_0000 + v
    ensures 1073741823 < v ==> |Encoding(v)| == 8 && Value(Encoding(v)) == 0xc000_0000_0000_0000 + v
  {
    var e := Encoding(v);
    assert v <= 63 ==> e == [v];
    RoundTrip(v, []);
    hide Encoding, Decode, Value, Pow256;
    assert e + [] == e && e[..|e|] == e;
    DecodeMeaning(e);
    PowValues();
    var tag := e[0] / 64;
    if tag == 1 {
      assert Value(e) == v + 1 * 64 * Pow256(1);
    } else if tag == 2 {
      assert Value(e) == v + 2 * 64 * Pow256(3);
    } else if tag == 3 {
      assert Value(e) == v + 3 * 64 * Pow256(7);
    }
  }

  /** What every first byte announces, and the error when bytes are missing. */
  lemma DecodingFormat(buf: Data)
    ensures buf == [] ==> Decode(buf) == Err(BufferTooShort(1, 0))
    ensures buf != [] && buf[0] < 64 ==> Decode(buf) == Ok((buf[0], 1))
    ensures buf != [] && 64 <= buf[0] < 128 ==>
              Decode(buf) == if |buf| < 2 then Err(BufferTooShort(2, |buf|))
                             else Ok((Value(buf[..2]) - 0x4000, 2))
    ensures buf != [] && 128 <= buf[0] < 192 ==>
              Decode(buf) == if |buf| < 4 then Err(BufferTooShort(4, |buf|))
                             else Ok((Value(buf[..4]) - 0x8000_0000, 4))
    ensures buf != [] && 192 <= buf[0] ==>
              Decode(buf) == if |buf| < 8 then Err(BufferTooShort(8, |buf|))
                             else Ok((Value(buf[..8]) - 0xc000_0000_0000_0000, 8))
  {
    DecodeMeaning(buf);
    PowValues();
    hide Value, Pow256, Be2, Be4, Be8;
  }

  /** No encoding of `v` is shorter than the one written, so re-encoding never grows. */
  lemma ShortestForm(buf: Data)
    requires Decode(buf).Ok?
    ensures var (v, n) := Decode(buf).value;
            EncodedLen(v) <= n <= |buf|
  {
  }

  /** Writes `v` at `buf[at..]`; nothing is written on an error. */
  method Encode(v: nat, buf: array<Byte>, at: nat) returns (r: Result<nat, VarIntError>)
    requires at <= buf.Length
    modifies buf
    ensures v > VARINT_MAX ==> r == Err(ValueTooLarge(v))
    ensures v <= VARINT_MAX && buf.Length - at < EncodedLen(v) ==>
              r == Err(BufferTooShort(EncodedLen(v), buf.Length - at))
    ensures v <= VARINT_MAX && buf.Length - at >= EncodedLen(v) ==>
              && r == Ok(EncodedLen(v))
              && buf[..] == old(buf[..at]) + Encoding(v) + old(buf[at + EncodedLen(v)..])
    ensures r.Err? ==> buf[..] == old(buf[..])
  {
    if v > VARINT_MAX {
      return Err(ValueTooLarge(v));
    }
    var len := EncodedLen(v);
    if buf.Length - at < len {
      return Err(BufferTooShort(len, buf.Length - at));
    }
    ShrBound(v);
    match len {
      case 1 =>
        Store(buf, at, [v]);
      case 2 =>
        Store(buf, at, [0x40 + Shr8(v, 1), v % 256]);
      case 4 =>
        Store(buf, at, [0x80 + Shr8(v, 3), Shr8(v, 2) % 256, Shr8(v, 1) % 256, v % 256]);
      case _ =>
        Store(buf, at, [0xc0 + Shr8(v, 7), Shr8(v, 6) % 256, Shr8(v, 5) % 256, Shr8(v, 4) % 256,
                        Shr8(v, 3) % 256, Shr8(v, 2) % 256, Shr8(v, 1) % 256, v % 256]);
    }
    return Ok(len);
  }

  /** Appends `v` to a buffer through a temporary array, as `put_varint` does. */
  method PutVarint(buf: Buffer, v: nat) returns (r: Result<(), VarIntError>)
    modifies buf
    ensures r == if v <= VARINT_MAX then Ok(()) else Err(ValueTooLarge(v))
    ensures buf.bytes == old(buf.bytes) + if v <= VARINT_MAX then Encoding(v) else []
  {
    if v > VARINT_MAX {
      return Err(ValueTooLarge(v));
    }
    var len := EncodedLen(v);
    var tmp := new Byte[8](_ => 0);
    var n := Encode(v, tmp, 0);
    buf.PutSlice(tmp[..len]);
    return Ok(());
  }
}
