/**
 The bytes of packet headers with every position and bit written out, as section 17 of RFC 9000
 draws them: what the parsers make of any bytes, which bytes they refuse, and what the writers
 put down.
 */
module HeaderFormat {
  import opened Wrappers
  import opened Bytes
  import opened Packets
  import VarInt

  type Parsed = Result<(LongHeader, Data), PacketError>

  // ------------------------------------------------------------ long headers, reading

  lemma VersionBytes(s: Data)
    requires |s| >= 5
    ensures Value(s[1..5]) == Be4(s[1], s[2], s[3], s[4]) < 0x1_0000_0000
  {
    VarInt.Value4(s[1..5]);
  }

  /** Which bytes are no long header at all, in the order of the checks. */
  lemma LongFormRefused(s: Data)
    ensures s == [] ==> LongHeaderAt(s) == Err(BufferTooShort)
    ensures s != [] && s[0] < 0x80 ==> LongHeaderAt(s) == Err(InvalidHeaderForm)
    ensures s != [] && s[0] >= 0x80 && |s| < 5 ==> LongHeaderAt(s) == Err(BufferTooShort)
    ensures |s| >= 5 && s[0] >= 0x80 && Value(s[1..5]) != 0 && s[0] / 64 % 2 == 0 ==>
              LongHeaderAt(s) == Err(FixedBitNotSet)
  {
    hide TypedAt, VersionNegotiationAt;
    if |s| >= 5 {
      VersionBytes(s);
    }
  }

  /** A long header of a version other than 0, with the fixed bit set. */
  predicate Versioned(s: Data)
  {
    |s| >= 5 && s[0] >= 0x80 && s[0] / 64 % 2 == 1 && Value(s[1..5]) != 0
  }

  /** Its connection IDs: a length byte of at most 20 each, with that many bytes behind it. */
  predicate HasIds(s: Data)
  {
    && Versioned(s) && |s| >= 6 && s[5] <= 20
    && |s| >= 7 + s[5] && s[6 + s[5]] <= 20
    && |s| >= 7 + s[5] + s[6 + s[5]]
  }

  lemma TypedHeader(s: Data)
    requires Versioned(s)
    ensures Value(s[1..5]) < 0x1_0000_0000
    ensures LongHeaderAt(s) == TypedAt(FromBits(s[0] / 16 % 4), Value(s[1..5]), s[0] % 4 + 1, s[5..])
  {
    hide TypedAt, VersionNegotiationAt;
    VersionBytes(s);
  }

  /** Which connection IDs are refused, and how. */
  lemma IdsRefused(s: Data)
    requires Versioned(s)
    ensures |s| == 5 ==> LongHeaderAt(s) == Err(BufferTooShort)
    ensures |s| > 5 && s[5] > 20 ==> LongHeaderAt(s) == Err(InvalidCidLength(s[5]))
    ensures |s| > 5 && s[5] <= 20 && |s| < 7 + s[5] ==> LongHeaderAt(s) == Err(BufferTooShort)
    ensures |s| > 5 && s[5] <= 20 && |s| >= 7 + s[5] && s[6 + s[5]] > 20 ==>
              LongHeaderAt(s) == Err(InvalidCidLength(s[6 + s[5]]))
    ensures |s| > 5 && s[5] <= 20 && |s| >= 7 + s[5] && s[6 + s[5]] <= 20
            && |s| < 7 + s[5] + s[6 + s[5]] ==>
              LongHeaderAt(s) == Err(BufferTooShort)
  {
    TypedHeader(s);
    hide LongHeaderAt, NumberAt, Value;
  }

  /** A Length of any encoding and an `n`-byte packet number at the front of `t`: the end of the
      header `h`, or the error of what is missing. */
  predicate EndsWithNumber(r: Parsed, h: LongHeader, n: nat, t: Data)
  {
    match VarInt.Decode(t)
    case Err(e) => r == Err(PacketError.BadVarInt(e))
    case Ok((length, k)) =>
      if |t| < k + n then r == Err(BufferTooShort)
      else r == Ok((h.(length := Some(length), truncatedPn := Some(Value(t[k..k + n])), pnLen := Some(n)),
                    t[k + n..]))
  }

  lemma NumberEnds(h: LongHeader, n: nat, t: Data)
    requires 1 <= n <= 4
    ensures EndsWithNumber(NumberAt(h, n, t), h, n, t)
  {
    if VarInt.Decode(t).Ok? {
      var k := VarInt.Decode(t).value.1;
      VarInt.DecodeMeaning(t);
      if |t| >= k + n {
        assert t[k..][..n] == t[k..k + n] && t[k..][n..] == t[k + n..];
      }
    }
    hide VarInt.Decode, ReadPn;
  }

  /** A token of any length at the front of `t`, then the end of the header. */
  predicate EndsWithToken(r: Parsed, h: LongHeader, n: nat, t: Data)
  {
    match VarInt.Decode(t)
    case Err(e) => r == Err(PacketError.BadVarInt(e))
    case Ok((len, k)) =>
      if |t| < k + len then r == Err(BufferTooShort)
      else EndsWithNumber(r, h.(token := Some(t[k..k + len])), n, t[k + len..])
  }

  function TokenAt(h: LongHeader, n: nat, t: Data): (r: Parsed)
  {
    var (len, s3) :- TakeVarint(t);
    var (token, s4) :- TakeFixed(s3, len);
    NumberAt(h.(token := Some(token)), n, s4)
  }

  lemma TokenEnds(h: LongHeader, n: nat, t: Data)
    requires 1 <= n <= 4
    ensures EndsWithToken(TokenAt(h, n, t), h, n, t)
  {
    hide NumberAt, EndsWithNumber, Value;
    if VarInt.Decode(t).Ok? {
      var (len, k) := VarInt.Decode(t).value;
      VarInt.DecodeMeaning(t);
      if |t| >= k + len {
        assert t[k..][..len] == t[k..k + len] && t[k..][len..] == t[k + len..];
        NumberEnds(h.(token := Some(t[k..k + len])), n, t[k + len..]);
      }
    }
    hide VarInt.Decode;
  }

  /** The parser behind the connection IDs. */
  lemma BehindIds(s: Data, ty: LongType, version: U32, n: nat)
    requires HasIds(s)
    ensures var d, c := s[5], s[6 + s[5]];
            var t := s[7 + d + c..];
            var h := LongHeader(ty, version, s[6..6 + d], s[7 + d..7 + d + c], None, None, None, None);
            TypedAt(ty, version, n, s[5..])
            == if ty == Retry then Ok((h, t))
               else if ty == Initial then TokenAt(h, n, t)
               else NumberAt(h, n, t)
  {
    hide Value, NumberAt, TakeVarint, TakeFixed, TakeCid;
    Ids(s);
  }

  /** What the parser makes of every header with connection IDs: bits 4 and 5 are the type (0 for
      Initial, 1 for 0-RTT, 2 for Handshake, 3 for Retry), bytes 1 to 4 the version, the IDs stand
      behind their length bytes, and the low two bits are the length of the packet number, less
      one. An Initial has a token, Retry ends here, the others go on with Length. */
  lemma LongFields(s: Data)
    requires HasIds(s)
    ensures Value(s[1..5]) < 0x1_0000_0000
    ensures var bits, n, d, c := s[0] / 16 % 4, s[0] % 4 + 1, s[5], s[6 + s[5]];
            var t := s[7 + d + c..];
            var ty := if bits == 0 then Initial else if bits == 1 then ZeroRtt
                      else if bits == 2 then Handshake else Retry;
            var h := LongHeader(ty, Value(s[1..5]), s[6..6 + d], s[7 + d..7 + d + c],
                                None, None, None, None);
            && (bits == 3 ==> LongHeaderAt(s) == Ok((h, t)))
            && (bits == 1 || bits == 2 ==> EndsWithNumber(LongHeaderAt(s), h, n, t))
            && (bits == 0 ==> EndsWithToken(LongHeaderAt(s), h, n, t))
  {
    hide Value, EndsWithNumber, EndsWithToken, LongHeaderAt;
    TypedFields(s, FromBits(s[0] / 16 % 4));
  }

  lemma TypedFields(s: Data, ty: LongType)
    requires HasIds(s) && ty == FromBits(s[0] / 16 % 4)
    ensures Value(s[1..5]) < 0x1_0000_0000
    ensures var d, c := s[5], s[6 + s[5]];
            var t := s[7 + d + c..];
            var h := LongHeader(ty, Value(s[1..5]), s[6..6 + d], s[7 + d..7 + d + c], None, None, None, None);
            && (ty == Retry ==> LongHeaderAt(s) == Ok((h, t)))
            && (ty == ZeroRtt || ty == Handshake ==> EndsWithNumber(LongHeaderAt(s), h, s[0] % 4 + 1, t))
            && (ty == Initial ==> EndsWithToken(LongHeaderAt(s), h, s[0] % 4 + 1, t))
  {
    hide Value, EndsWithNumber, EndsWithToken, NumberAt, TokenAt, TypedAt, LongHeaderAt, FromBits;
    TypedHeader(s);
    var n, d, c := s[0] % 4 + 1, s[5], s[6 + s[5]];
    var t := s[7 + d + c..];
    var h := LongHeader(ty, Value(s[1..5]), s[6..6 + d], s[7 + d..7 + d + c], None, None, None, None);
    BehindIds(s, ty, Value(s[1..5]), n);
    EndOf(LongHeaderAt(s), h, n, t);
  }

  lemma EndOf(r: Parsed, h: LongHeader, n: nat, t: Data)
    requires 1 <= n <= 4
    requires r == if h.ty == Retry then Ok((h, t))
                  else if h.ty == Initial then TokenAt(h, n, t)
                  else NumberAt(h, n, t)
    ensures h.ty == ZeroRtt || h.ty == Handshake ==> EndsWithNumber(r, h, n, t)
    ensures h.ty == Initial ==> EndsWithToken(r, h, n, t)
  {
    hide EndsWithNumber, EndsWithToken, NumberAt, TokenAt;
    NumberEnds(h, n, t);
    TokenEnds(h, n, t);
  }

  lemma Ids(s: Data)
    requires HasIds(s)
    ensures var d, c := s[5], s[6 + s[5]];
            && TakeCid(s[5..]) == Ok((s[6..6 + d], s[6 + d..]))
            && TakeCid(s[6 + d..]) == Ok((s[7 + d..7 + d + c], s[7 + d + c..]))
  {
    hide Value;
    var d, c := s[5], s[6 + s[5]];
    assert s[5..][1..][..d] == s[6..6 + d] && s[5..][1..][d..] == s[6 + d..];
    assert s[6 + d..][1..][..c] == s[7 + d..7 + d + c] && s[6 + d..][1..][c..] == s[7 + d + c..];
  }

  lemma AnyId(s: Data, at: nat, after: nat)
    requires at < |s|
    ensures TakeAnyCid(s[at..], after)
         == if |s| < at + 1 + s[at] + after then Err(BufferTooShort)
            else if s[at] > 20 then Err(BadConnectionId(s[at]))
            else Ok((s[at + 1..at + 1 + s[at]], s[at + 1 + s[at]..]))
  {
    var n := s[at];
    if |s| >= at + 1 + n {
      assert s[at..][1..][..n] == s[at + 1..at + 1 + n] && s[at..][1..][n..] == s[at + 1 + n..];
    }
  }

  lemma NoIds()
    ensures VersionNegotiationAt([]) == Err(BufferTooShort)
  {
  }

  lemma AnyIds(s: Data)
    requires |s| > 5
    ensures var d: nat := s[5];
            VersionNegotiationAt(s[5..])
            == if |s| < 7 + d then Err(BufferTooShort)
               else if d > 20 then Err(BadConnectionId(d))
               else
                 var c: nat := s[6 + d];
                 if |s| < 7 + d + c then Err(BufferTooShort)
                 else if c > 20 then Err(BadConnectionId(c))
                 else Ok((LongHeader(VersionNegotiation, 0, s[6..6 + d], s[7 + d..7 + d + c],
                                     None, None, None, None), s[7 + d + c..]))
  {
    hide TakeAnyCid;
    var d: nat := s[5];
    AnyId(s, 5, 1);
    if |s| >= 7 + d {
      AnyId(s, 6 + d, 0);
    }
  }

  /** Version 0 is Version Negotiation, whatever the bits of the first byte say. Its connection IDs
      must be there, and at most 20 bytes long; what follows them is left alone. */
  lemma VersionNegotiationFields(s: Data)
    requires |s| >= 5 && s[0] >= 0x80 && Value(s[1..5]) == 0
    ensures var r := LongHeaderAt(s);
            && (|s| == 5 ==> r == Err(BufferTooShort))
            && (|s| > 5 ==>
                  var d: nat := s[5];
                  && (|s| < 7 + d ==> r == Err(BufferTooShort))
                  && (|s| >= 7 + d && d > 20 ==> r == Err(BadConnectionId(d)))
                  && (|s| >= 7 + d && d <= 20 ==>
                        var c: nat := s[6 + d];
                        && (|s| < 7 + d + c ==> r == Err(BufferTooShort))
                        && (|s| >= 7 + d + c && c > 20 ==> r == Err(BadConnectionId(c)))
                        && (|s| >= 7 + d + c && c <= 20 ==>
                              r == Ok((LongHeader(VersionNegotiation, 0, s[6..6 + d], s[7 + d..7 + d + c],
                                                  None, None, None, None),
                                       s[7 + d + c..])))))
  {
    hide Value, TypedAt, VersionNegotiationAt;
    VersionBytes(s);
    if |s| > 5 {
      AnyIds(s);
    } else {
      assert s[5..] == [];
      NoIds();
    }
  }

  // ------------------------------------------------------------ long headers, writing

  /** What the writer puts down: form and fixed bit, the type in bits 4 and 5, the length of the
      packet number in the low two, four bytes of version, and the IDs behind their lengths. */
  lemma LongWritten(h: LongHeader)
    requires PnLenOk(h.pnLen) && |h.dstCid| < 256 && |h.srcCid| < 256
    ensures var n := if h.pnLen.Some? then h.pnLen.value else 1;
            var bits := match h.ty
                        case Initial => 0
                        case ZeroRtt => 1
                        case Handshake => 2
                        case Retry => 3
                        case VersionNegotiation => 0;
            var token := if h.token.Some? then VarInt.Enc(|h.token.value|) + h.token.value else [];
            var length := if h.length.Some? then VarInt.Enc(h.length.value) else [];
            var zeros := Zeros(if h.pnLen.Some? then n else 0);
            LongWire(h)
            == [0xc0 + 16 * bits + (n - 1)] + (BigEndian(h.version, 4)
               + ([|h.dstCid|] + (h.dstCid + ([|h.srcCid|] + (h.srcCid + (token + (length + zeros)))))))
    ensures Value(BigEndian(h.version, 4)) == h.version
  {
    hide VarInt.Enc, BigEndian, Zeros, Value;
    VersionKept(h.version);
    var zeros := Zeros(if h.pnLen.Some? then h.pnLen.value else 0);
    var token := if h.token.Some? then VarInt.Enc(|h.token.value|) + h.token.value else [];
    var length := if h.length.Some? then VarInt.Enc(h.length.value) else [];
    assert LengthWire(h.length, zeros) == length + zeros;
    assert TokenWire(h.token, length + zeros) == token + (length + zeros);
    hide LengthWire, TokenWire;
  }

  lemma VersionKept(version: U32)
    ensures Value(BigEndian(version, 4)) == version
  {
    hide Value, BigEndian;
    ValueOfBigEndian(version, 4);
    assert Pow256(4) == 0x1_0000_0000;
    InBlock(version, 0, 0x1_0000_0000);
  }

  // ------------------------------------------------------------ short headers

  /** Which first bytes are refused: the form bit, the fixed bit, bits 3 and 4, and a length of 0
      in the low two bits. */
  lemma ShortRefused(s: Data, cidLen: nat)
    ensures s == [] ==> ShortHeaderAt(s, cidLen) == Err(BufferTooShort)
    ensures s != [] && s[0] >= 0x80 ==> ShortHeaderAt(s, cidLen) == Err(InvalidHeaderForm)
    ensures s != [] && s[0] < 0x40 ==> ShortHeaderAt(s, cidLen) == Err(FixedBitNotSet)
    ensures s != [] && 0x40 <= s[0] < 0x80 && (s[0] / 8 % 4 != 0 || s[0] % 4 == 0) ==>
              ShortHeaderAt(s, cidLen) == Err(ReservedBitsSet)
  {
    hide TakeFixed, ReadPn;
  }

  /** What the parser makes of all others: bit 5 is the spin bit, bit 2 the key phase, the ID
      follows, and the low two bits are the length of the packet number behind it. */
  lemma ShortFields(s: Data, cidLen: nat)
    requires s != [] && 0x40 <= s[0] < 0x80 && s[0] / 8 % 4 == 0 && s[0] % 4 != 0
    ensures var n := s[0] % 4;
            && (|s| < 1 + cidLen ==> ShortHeaderAt(s, cidLen) == Err(BufferTooShort))
            && (|s| >= 1 + cidLen && cidLen > 20 ==>
                  ShortHeaderAt(s, cidLen) == Err(BadConnectionId(cidLen)))
            && (1 + cidLen <= |s| < 1 + cidLen + n && cidLen <= 20 ==>
                  ShortHeaderAt(s, cidLen) == Err(BufferTooShort))
            && (|s| >= 1 + cidLen + n && cidLen <= 20 ==>
                  ShortHeaderAt(s, cidLen)
                  == Ok((ShortHeader(s[0] / 32 % 2 == 1, s[0] / 4 % 2 == 1, s[1..1 + cidLen],
                                     Value(s[1 + cidLen..1 + cidLen + n]), n),
                         s[1 + cidLen + n..])))
  {
    hide ReadPn;
    var n := s[0] % 4;
    if |s| >= 1 + cidLen + n {
      assert s[1..][..cidLen] == s[1..1 + cidLen];
      assert s[1..][cidLen..][..n] == s[1 + cidLen..1 + cidLen + n];
      assert s[1..][cidLen..][n..] == s[1 + cidLen + n..];
    }
    hide Value;
  }

  /** What the writer puts down for one to three bytes of packet number. */
  lemma ShortWritten(h: ShortHeader)
    requires 1 <= h.pnLen <= 3
    ensures ShortWire(h) == [0x40 + (if h.spin then 0x20 else 0) + (if h.keyPhase then 0x04 else 0) + h.pnLen]
                            + h.dstCid + Zeros(h.pnLen)
  {
  }
}
