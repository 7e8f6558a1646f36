/**
 The wire format of frames with every type code, field and flag written out, as section 19 of
 RFC 9000 draws them: what the writer puts down, what the parser makes of it in any encoding of
 its integers, and what the parser refuses.
 */
module FrameFormat {
  import opened Wrappers
  import opened Bytes
  import opened Frames
  import FrameLaws
  import VarInt

  // ------------------------------------------------------------ writing

  /** ACK ranges behind the first: gap and range of each, then `t`. */
  function Pairs(ranges: seq<AckRange>, t: Data): Data
  {
    if ranges == [] then t
    else VarInt.Enc(ranges[0].gap) + (VarInt.Enc(ranges[0].range) + Pairs(ranges[1..], t))
  }

  /** The three ECN counts, if there are any, then `t`. */
  function Counts(ecn: Option<EcnCounts>, t: Data): Data
  {
    if ecn.None? then t
    else VarInt.Enc(ecn.value.ect0) + (VarInt.Enc(ecn.value.ect1) + (VarInt.Enc(ecn.value.ecnCe) + t))
  }

  lemma {:induction false} PairsWritten(ranges: seq<AckRange>, t: Data)
    ensures RangesWire(ranges, t) == Pairs(ranges, t)
  {
    hide VarInt.Enc;
    if ranges != [] {
      PairsWritten(ranges[1..], t);
    }
  }

  /** Code and fields of every frame that has integers only. */
  lemma IntegersWritten(a: nat, b: nat, c: nat, t: Data)
    ensures WireTo(ResetStream(a, b, c), t)
         == [0x04] + (VarInt.Enc(a) + (VarInt.Enc(b) + (VarInt.Enc(c) + t)))
    ensures WireTo(StopSending(a, b), t) == [0x05] + (VarInt.Enc(a) + (VarInt.Enc(b) + t))
    ensures WireTo(MaxData(a), t) == [0x10] + (VarInt.Enc(a) + t)
    ensures WireTo(MaxStreamData(a, b), t) == [0x11] + (VarInt.Enc(a) + (VarInt.Enc(b) + t))
    ensures WireTo(MaxStreams(true, a), t) == [0x12] + (VarInt.Enc(a) + t)
    ensures WireTo(MaxStreams(false, a), t) == [0x13] + (VarInt.Enc(a) + t)
    ensures WireTo(DataBlocked(a), t) == [0x14] + (VarInt.Enc(a) + t)
    ensures WireTo(StreamDataBlocked(a, b), t) == [0x15] + (VarInt.Enc(a) + (VarInt.Enc(b) + t))
    ensures WireTo(StreamsBlocked(true, a), t) == [0x16] + (VarInt.Enc(a) + t)
    ensures WireTo(StreamsBlocked(false, a), t) == [0x17] + (VarInt.Enc(a) + t)
    ensures WireTo(RetireConnectionId(a), t) == [0x19] + (VarInt.Enc(a) + t)
  {
    hide VarInt.Enc;
    Ints(a, b, c, t);
    hide VarintsWire;
  }

  lemma Ints(a: nat, b: nat, c: nat, t: Data)
    ensures VarintsWire([a], t) == VarInt.Enc(a) + t
    ensures VarintsWire([a, b], t) == VarInt.Enc(a) + (VarInt.Enc(b) + t)
    ensures VarintsWire([a, b, c], t) == VarInt.Enc(a) + (VarInt.Enc(b) + (VarInt.Enc(c) + t))
  {
    hide VarInt.Enc;
    assert [a][1..] == [] && [a, b][1..] == [b] && [b][1..] == [];
    assert [a, b, c][1..] == [b, c] && [b, c][1..] == [c] && [c][1..] == [];
    assert VarintsWire([b], t) == VarInt.Enc(b) + t;
    assert VarintsWire([c], t) == VarInt.Enc(c) + t;
    assert VarintsWire([b, c], t) == VarInt.Enc(b) + (VarInt.Enc(c) + t);
  }

  /** Code and fields of every frame that carries bytes. */
  lemma BytesWritten(a: nat, b: nat, d: Data, t: Data)
    ensures WireTo(Crypto(a, d), t) == [0x06] + (VarInt.Enc(a) + (VarInt.Enc(|d|) + (d + t)))
    ensures WireTo(NewToken(d), t) == [0x07] + (VarInt.Enc(|d|) + (d + t))
    ensures |d| == 8 ==> WireTo(PathChallenge(d), t) == [0x1a] + (d + t)
    ensures |d| == 8 ==> WireTo(PathResponse(d), t) == [0x1b] + (d + t)
    ensures WireTo(ConnectionClose(a, Some(b), d), t)
         == [0x1c] + (VarInt.Enc(a) + (VarInt.Enc(b) + (VarInt.Enc(|d|) + (d + t))))
    ensures WireTo(ConnectionClose(a, None, d), t)
         == [0x1d] + (VarInt.Enc(a) + (VarInt.Enc(|d|) + (d + t)))
  {
    hide VarInt.Enc, AckWire, StreamWire, NewConnectionIdWire, VarintsWire, RangesWire, EcnWire;
  }

  /** The codes of the frames that carry nothing. */
  lemma BareWritten(t: Data)
    ensures WireTo(Padding, t) == [0x00] + t
    ensures WireTo(Ping, t) == [0x01] + t
    ensures WireTo(HandshakeDone, t) == [0x1e] + t
  {
    hide VarInt.Enc;
  }

  /** The eight STREAM types: 1 for FIN, 2 for data with its length, 4 for an offset but 0. */
  lemma StreamWritten(id: nat, offset: nat, d: Data, t: Data)
    requires offset > 0 && d != []
    ensures WireTo(Stream(id, 0, [], false), t) == [0x08] + (VarInt.Enc(id) + t)
    ensures WireTo(Stream(id, 0, [], true), t) == [0x09] + (VarInt.Enc(id) + t)
    ensures WireTo(Stream(id, 0, d, false), t)
         == [0x0a] + (VarInt.Enc(id) + (VarInt.Enc(|d|) + (d + t)))
    ensures WireTo(Stream(id, 0, d, true), t)
         == [0x0b] + (VarInt.Enc(id) + (VarInt.Enc(|d|) + (d + t)))
    ensures WireTo(Stream(id, offset, [], false), t)
         == [0x0c] + (VarInt.Enc(id) + (VarInt.Enc(offset) + t))
    ensures WireTo(Stream(id, offset, [], true), t)
         == [0x0d] + (VarInt.Enc(id) + (VarInt.Enc(offset) + t))
    ensures WireTo(Stream(id, offset, d, false), t)
         == [0x0e] + (VarInt.Enc(id) + (VarInt.Enc(offset) + (VarInt.Enc(|d|) + (d + t))))
    ensures WireTo(Stream(id, offset, d, true), t)
         == [0x0f] + (VarInt.Enc(id) + (VarInt.Enc(offset) + (VarInt.Enc(|d|) + (d + t))))
  {
    hide VarInt.Enc;
    assert [] + t == t;
    assert [] + (VarInt.Enc(|d|) + (d + t)) == VarInt.Enc(|d|) + (d + t);
  }

  /** ACK: 0x02, or 0x03 with ECN counts. The ranges behind the first are counted before it. */
  lemma AckWritten(largest: nat, delay: nat, ranges: seq<AckRange>, ecn: Option<EcnCounts>, t: Data)
    requires ranges != []
    ensures WireTo(Ack(largest, delay, ranges, ecn), t)
         == [if ecn.Some? then 0x03 else 0x02]
            + (VarInt.Enc(largest) + (VarInt.Enc(delay) + (VarInt.Enc(|ranges| - 1)
            + (VarInt.Enc(ranges[0].range) + Pairs(ranges[1..], Counts(ecn, t))))))
  {
    hide VarInt.Enc;
    PairsWritten(ranges[1..], Counts(ecn, t));
    hide RangesWire, Pairs;
  }

  /** NEW_CONNECTION_ID: sequence number, Retire Prior To, length byte, ID, reset token. */
  lemma NewConnectionIdWritten(sequence: nat, retire: nat, id: Data, token: Token16, t: Data)
    requires |id| < 256
    ensures WireTo(NewConnectionId(sequence, retire, id, token), t)
         == [0x18] + (VarInt.Enc(sequence) + (VarInt.Enc(retire) + ([|id|] + (id + (token + t)))))
  {
    hide VarInt.Enc;
  }

  // ------------------------------------------------------------ reading

  /** `e` is an encoding of `v`, in one of the four lengths. */
  predicate Encodes(e: Data, v: nat)
  {
    VarInt.Decode(e) == Ok((v, |e|))
  }

  lemma TakeAny(e: Data, v: nat, t: Data)
    requires Encodes(e, v)
    ensures TakeVarint(e + t) == Ok((v, t))
    ensures e != []
  {
    VarInt.DecodeMeaning(e);
    assert (e + t)[..|e|] == e && (e + t)[|e|..] == t;
    assert forall i :: 0 <= i < |e| ==> (e + t)[i] == e[i];
  }

  /** A type below 64 in one byte, and what the parser does behind it. */
  lemma Typed(b: Byte, s: Data)
    requires b < 64
    ensures TakeFrame([b] + s) == Body(b, s)
  {
    hide Body;
    FrameLaws.TakeTyped(b, s);
  }

  /** Which body reader each of these types has. */
  lemma Dispatched(b: Byte, s: Data)
    ensures b == 0x02 || b == 0x03 ==> TakeFrame([b] + s) == AckBody(b == 0x03, s)
    ensures b == 0x04 || b == 0x05 || 0x10 <= b <= 0x17 || b == 0x19 ==> TakeFrame([b] + s) == VarintBody(b, s)
    ensures b == 0x06 ==> TakeFrame([b] + s) == CryptoBody(s)
    ensures b == 0x07 ==> TakeFrame([b] + s) == NewTokenBody(s)
    ensures 0x08 <= b <= 0x0f ==> TakeFrame([b] + s) == StreamBody(b, s)
    ensures b == 0x1a || b == 0x1b ==> TakeFrame([b] + s) == PathBody(b == 0x1a, s)
    ensures b == 0x1c || b == 0x1d ==> TakeFrame([b] + s) == CloseBody(b == 0x1d, s)
  {
    hide TakeFrame, AckBody, CryptoBody, NewTokenBody, StreamBody, PathBody, CloseBody,
         NewConnectionIdBody, VarintBody;
    if b < 64 {
      Typed(b, s);
    }
  }

  /** What the parser makes of every code that one integer follows, in any of its encodings. */
  lemma IntegerRead(a: Data, u: nat, t: Data)
    requires Encodes(a, u)
    ensures TakeFrame([0x10] + (a + t)) == Ok((MaxData(u), t))
    ensures TakeFrame([0x12] + (a + t)) == Ok((MaxStreams(true, u), t))
    ensures TakeFrame([0x13] + (a + t)) == Ok((MaxStreams(false, u), t))
    ensures TakeFrame([0x14] + (a + t)) == Ok((DataBlocked(u), t))
    ensures TakeFrame([0x16] + (a + t)) == Ok((StreamsBlocked(true, u), t))
    ensures TakeFrame([0x17] + (a + t)) == Ok((StreamsBlocked(false, u), t))
    ensures TakeFrame([0x19] + (a + t)) == Ok((RetireConnectionId(u), t))
  {
    hide TakeFrame, TakeVarint, Encodes, Body;
    TakeAny(a, u, t);
    Dispatched(0x10, a + t);
    Dispatched(0x12, a + t);
    Dispatched(0x13, a + t);
    Dispatched(0x14, a + t);
    Dispatched(0x16, a + t);
    Dispatched(0x17, a + t);
    Dispatched(0x19, a + t);
  }

  /** What it makes of those that two or three integers follow. */
  lemma IntegersRead(a: Data, u: nat, b: Data, v: nat, c: Data, w: nat, t: Data)
    requires Encodes(a, u) && Encodes(b, v) && Encodes(c, w)
    ensures TakeFrame([0x04] + (a + (b + (c + t)))) == Ok((ResetStream(u, v, w), t))
    ensures TakeFrame([0x05] + (a + (b + t))) == Ok((StopSending(u, v), t))
    ensures TakeFrame([0x11] + (a + (b + t))) == Ok((MaxStreamData(u, v), t))
    ensures TakeFrame([0x15] + (a + (b + t))) == Ok((StreamDataBlocked(u, v), t))
  {
    hide TakeFrame, TakeVarint, Encodes, Body;
    TakeAny(a, u, b + t);
    TakeAny(b, v, t);
    TakeAny(a, u, b + (c + t));
    TakeAny(b, v, c + t);
    TakeAny(c, w, t);
    Dispatched(0x04, a + (b + (c + t)));
    Dispatched(0x05, a + (b + t));
    Dispatched(0x11, a + (b + t));
    Dispatched(0x15, a + (b + t));
  }

  /** What the parser makes of every code that bytes follow, or nothing. */
  lemma BytesRead(a: Data, u: nat, b: Data, v: nat, n: Data, d: Data, t: Data)
    requires Encodes(a, u) && Encodes(b, v) && Encodes(n, |d|)
    ensures TakeFrame([0x00] + t) == Ok((Padding, t))
    ensures TakeFrame([0x01] + t) == Ok((Ping, t))
    ensures TakeFrame([0x06] + (a + (n + (d + t)))) == Ok((Crypto(u, d), t))
    ensures TakeFrame([0x07] + (n + (d + t))) == Ok((NewToken(d), t))
    ensures |d| == 8 ==> TakeFrame([0x1a] + (d + t)) == Ok((PathChallenge(d), t))
    ensures |d| == 8 ==> TakeFrame([0x1b] + (d + t)) == Ok((PathResponse(d), t))
    ensures TakeFrame([0x1c] + (a + (b + (n + (d + t))))) == Ok((ConnectionClose(u, Some(v), d), t))
    ensures TakeFrame([0x1d] + (a + (n + (d + t)))) == Ok((ConnectionClose(u, None, d), t))
    ensures TakeFrame([0x1e] + t) == Ok((HandshakeDone, t))
  {
    hide TakeFrame, TakeVarint, TakeBytes, Encodes;
    var s1 := n + (d + t);
    Typed(0x00, t);
    Typed(0x01, t);
    Dispatched(0x06, a + s1);
    Dispatched(0x07, s1);
    Dispatched(0x1a, d + t);
    Dispatched(0x1b, d + t);
    Dispatched(0x1c, a + (b + s1));
    Dispatched(0x1d, a + s1);
    Typed(0x1e, t);
    LengthAndBytes(n, d, t);
    FrameLaws.TakeRaw(d, t);
    TakeAny(a, u, s1);
    TakeAny(a, u, b + s1);
    TakeAny(b, v, s1);
    hide TakeVarintBytes, Body;
  }

  /** What the parser makes of the STREAM codes without a length: the data runs to the end of the
      packet. Without an offset, the offset is 0. */
  lemma StreamToEndRead(a: Data, u: nat, b: Data, v: nat, t: Data)
    requires Encodes(a, u) && Encodes(b, v)
    ensures TakeFrame([0x08] + (a + t)) == Ok((Stream(u, 0, t, false), []))
    ensures TakeFrame([0x09] + (a + t)) == Ok((Stream(u, 0, t, true), []))
    ensures TakeFrame([0x0c] + (a + (b + t))) == Ok((Stream(u, v, t, false), []))
    ensures TakeFrame([0x0d] + (a + (b + t))) == Ok((Stream(u, v, t, true), []))
  {
    hide TakeFrame, TakeVarint, TakeVarintBytes, Encodes, Body;
    Dispatched(0x08, a + t);
    Dispatched(0x09, a + t);
    Dispatched(0x0c, a + (b + t));
    Dispatched(0x0d, a + (b + t));
    TakeAny(a, u, t);
    TakeAny(a, u, b + t);
    TakeAny(b, v, t);
  }

  /** What it makes of those with a length. */
  lemma StreamRead(a: Data, u: nat, b: Data, v: nat, n: Data, d: Data, t: Data)
    requires Encodes(a, u) && Encodes(b, v) && Encodes(n, |d|)
    ensures TakeFrame([0x0a] + (a + (n + (d + t)))) == Ok((Stream(u, 0, d, false), t))
    ensures TakeFrame([0x0b] + (a + (n + (d + t)))) == Ok((Stream(u, 0, d, true), t))
    ensures TakeFrame([0x0e] + (a + (b + (n + (d + t))))) == Ok((Stream(u, v, d, false), t))
    ensures TakeFrame([0x0f] + (a + (b + (n + (d + t))))) == Ok((Stream(u, v, d, true), t))
  {
    hide TakeFrame, TakeVarint, TakeVarintBytes, Encodes, Body;
    var s := n + (d + t);
    LengthAndBytes(n, d, t);
    Dispatched(0x0a, a + s);
    Dispatched(0x0b, a + s);
    Dispatched(0x0e, a + (b + s));
    Dispatched(0x0f, a + (b + s));
    TakeAny(a, u, s);
    TakeAny(a, u, b + s);
    TakeAny(b, v, s);
  }

  lemma LengthAndBytes(n: Data, d: Data, t: Data)
    requires Encodes(n, |d|)
    ensures TakeVarintBytes(n + (d + t)) == Ok((d, t))
  {
    hide TakeVarint, TakeBytes, Encodes;
    TakeAny(n, |d|, d + t);
    FrameLaws.TakeRaw(d, t);
  }

  datatype PairBytes = PairBytes(gap: Data, range: Data)

  predicate EncodesRange(p: PairBytes, r: AckRange)
  {
    Encodes(p.gap, r.gap) && Encodes(p.range, r.range)
  }

  predicate EncodesRanges(ps: seq<PairBytes>, ranges: seq<AckRange>)
  {
    |ps| == |ranges| && forall i :: 0 <= i < |ps| ==> EncodesRange(ps[i], ranges[i])
  }

  function PairsThen(ps: seq<PairBytes>, t: Data): Data
  {
    if ps == [] then t else ps[0].gap + (ps[0].range + PairsThen(ps[1..], t))
  }

  lemma {:induction false} PairsRead(ps: seq<PairBytes>, ranges: seq<AckRange>, t: Data)
    requires EncodesRanges(ps, ranges)
    ensures TakeRanges(|ranges|, PairsThen(ps, t)) == Ok((ranges, t))
    decreases |ps|
  {
    hide TakeVarint, Encodes;
    if ps != [] {
      assert EncodesRange(ps[0], ranges[0]);
      var rest := PairsThen(ps[1..], t);
      TakeAny(ps[0].gap, ranges[0].gap, ps[0].range + rest);
      TakeAny(ps[0].range, ranges[0].range, rest);
      PairsRead(ps[1..], ranges[1..], t);
      assert ranges == [ranges[0]] + ranges[1..];
    }
  }

  /** What the parser makes of an ACK: the announced number of ranges behind a first one whose
      gap is 0, and ECN counts exactly behind 0x03. */
  lemma AckRead(a: Data, largest: nat, b: Data, delay: nat, n: Data, first: Data, range: nat,
                ps: seq<PairBytes>, more: seq<AckRange>, t: Data)
    requires Encodes(a, largest) && Encodes(b, delay) && Encodes(n, |more|) && Encodes(first, range)
    requires EncodesRanges(ps, more)
    ensures TakeFrame([0x02] + (a + (b + (n + (first + PairsThen(ps, t))))))
         == Ok((Ack(largest, delay, [AckRange(0, range)] + more, None), t))
  {
    hide Encodes, EncodesRanges;
    hide TakeVarint, TakeFrame, PairsThen, TakeRanges;
    AckStart(a, largest, b, delay, n, first, range, ps, more, t);
    Dispatched(0x02, a + (b + (n + (first + PairsThen(ps, t)))));
    hide Body;
  }

  lemma AckEcnRead(a: Data, largest: nat, b: Data, delay: nat, n: Data, first: Data, range: nat,
                   ps: seq<PairBytes>, more: seq<AckRange>, c: Data, ect0: nat, d: Data, ect1: nat,
                   e: Data, ce: nat, t: Data)
    requires Encodes(a, largest) && Encodes(b, delay) && Encodes(n, |more|) && Encodes(first, range)
    requires EncodesRanges(ps, more) && Encodes(c, ect0) && Encodes(d, ect1) && Encodes(e, ce)
    ensures TakeFrame([0x03] + (a + (b + (n + (first + PairsThen(ps, c + (d + (e + t))))))))
         == Ok((Ack(largest, delay, [AckRange(0, range)] + more, Some(EcnCounts(ect0, ect1, ce))), t))
  {
    hide Encodes, EncodesRanges, TakeVarint, TakeFrame, PairsThen, TakeRanges;
    var counts := c + (d + (e + t));
    AckStart(a, largest, b, delay, n, first, range, ps, more, counts);
    Dispatched(0x03, a + (b + (n + (first + PairsThen(ps, counts)))));
    TakeAny(c, ect0, d + (e + t));
    TakeAny(d, ect1, e + t);
    TakeAny(e, ce, t);
    hide Body;
  }

  /** The fields of an ACK up to its last range, one after the other. */
  lemma AckStart(a: Data, largest: nat, b: Data, delay: nat, n: Data, first: Data, range: nat,
                 ps: seq<PairBytes>, more: seq<AckRange>, t: Data)
    requires Encodes(a, largest) && Encodes(b, delay) && Encodes(n, |more|) && Encodes(first, range)
    requires EncodesRanges(ps, more)
    ensures var s4 := PairsThen(ps, t);
            var s3 := first + s4;
            var s2 := n + s3;
            var s1 := b + s2;
            && TakeVarint(a + s1) == Ok((largest, s1)) && TakeVarint(s1) == Ok((delay, s2))
            && TakeVarint(s2) == Ok((|more|, s3)) && TakeVarint(s3) == Ok((range, s4))
            && TakeRanges(|more|, s4) == Ok((more, t))
  {
    hide TakeVarint, Encodes, EncodesRanges, TakeRanges, PairsThen;
    var s4 := PairsThen(ps, t);
    TakeAny(a, largest, b + (n + (first + s4)));
    TakeAny(b, delay, n + (first + s4));
    TakeAny(n, |more|, first + s4);
    TakeAny(first, range, s4);
    PairsRead(ps, more, t);
  }

  /** What the parser makes of NEW_CONNECTION_ID: the ID of the length that the byte behind the two
      integers says, from 1 to 20, and 16 bytes of token; other lengths are refused. */
  lemma NewConnectionIdRead(a: Data, u: nat, b: Data, v: nat, n: Byte, s: Data)
    requires Encodes(a, u) && Encodes(b, v)
    ensures var r := TakeFrame([0x18] + (a + (b + ([n] + s))));
            && (r == Err(FrameError.InvalidCidLength(n)) <==> n < 1 || n > 20)
            && (1 <= n <= 20 && |s| < n ==> r == Err(Underflow(n)))
            && (1 <= n <= 20 && n <= |s| < n + 16 ==> r == Err(Underflow(16)))
            && (1 <= n <= 20 && |s| >= n + 16 ==>
                  r == Ok((NewConnectionId(u, v, s[..n], s[n..n + 16]), s[n + 16..])))
  {
    hide TakeVarint, Encodes;
    Typed(0x18, a + (b + ([n] + s)));
    TakeAny(a, u, b + ([n] + s));
    TakeAny(b, v, [n] + s);
    FrameLaws.TakeOne(n, s);
    hide TakeFrame, TakeU8;
    if 1 <= n <= 20 && |s| >= n + 16 {
      assert s[n..][..16] == s[n..n + 16] && s[n..][16..] == s[n + 16..];
    }
  }

  // ------------------------------------------------------------ refusals

  /** A type is unknown exactly when its low eight bits are above 0x1e, and the error names it; any
      other frame is refused only for what stands behind its type. */
  lemma UnknownRefused(s: Data)
    requires VarInt.Decode(s).Ok?
    ensures var ty := VarInt.Decode(s).value.0;
            && (ty % 256 >= 0x1f ==> TakeFrame(s) == Err(UnknownType(ty)))
            && (ty % 256 < 0x1f ==> TakeFrame(s).Ok? || FrameLaws.FieldError(TakeFrame(s).error))
  {
    hide VarInt.Decode, AckBody, VarintBody, StreamBody, NewConnectionIdBody, CloseBody, CryptoBody,
         NewTokenBody, PathBody;
    VarInt.ShortestForm(s);
    if VarInt.Decode(s).value.0 % 256 < 0x1f {
      FrameLaws.BodyErrors(VarInt.Decode(s).value.0, s[1..]);
      hide Body;
    }
  }

  /** Bytes that stop short of the length they announce are refused, and so are eight bytes of
      path data that are cut off; nothing at all is a varint without its first byte. */
  lemma ShortRefused(a: Data, u: nat, b: Data, v: nat, n: Data, len: nat, d: Data)
    requires Encodes(a, u) && Encodes(b, v) && Encodes(n, len) && |d| < len
    ensures TakeFrame([]) == Err(BadVarInt(VarInt.BufferTooShort(1, 0)))
    ensures TakeFrame([0x06] + (a + (n + d))) == Err(Underflow(len))
    ensures TakeFrame([0x07] + (n + d)) == Err(Underflow(len))
    ensures |d| < 8 ==> TakeFrame([0x1a] + d) == Err(Underflow(8))
    ensures |d| < 8 ==> TakeFrame([0x1b] + d) == Err(Underflow(8))
    ensures TakeFrame([0x1c] + (a + (b + (n + d)))) == Err(Underflow(len))
    ensures TakeFrame([0x1d] + (a + (n + d))) == Err(Underflow(len))
  {
    assert TakeFrame([]) == Err(BadVarInt(VarInt.BufferTooShort(1, 0)));
    hide TakeVarint, Encodes, TakeFrame;
    var s := n + d;
    TakeAny(n, len, d);
    assert TakeVarintBytes(s) == Err(Underflow(len));
    TakeAny(a, u, s);
    TakeAny(a, u, b + s);
    TakeAny(b, v, s);
    Dispatched(0x06, a + s);
    Dispatched(0x07, s);
    Dispatched(0x1a, d);
    Dispatched(0x1b, d);
    Dispatched(0x1c, a + (b + s));
    Dispatched(0x1d, a + s);
    hide TakeVarintBytes, Body;
  }

  /** So is stream data that stops short of its length. */
  lemma ShortStreamRefused(a: Data, u: nat, b: Data, v: nat, n: Data, len: nat, d: Data)
    requires Encodes(a, u) && Encodes(b, v) && Encodes(n, len) && |d| < len
    ensures TakeFrame([0x0a] + (a + (n + d))) == Err(Underflow(len))
    ensures TakeFrame([0x0b] + (a + (n + d))) == Err(Underflow(len))
    ensures TakeFrame([0x0e] + (a + (b + (n + d)))) == Err(Underflow(len))
    ensures TakeFrame([0x0f] + (a + (b + (n + d)))) == Err(Underflow(len))
  {
    hide TakeVarint, Encodes, TakeFrame;
    var s := n + d;
    TakeAny(n, len, d);
    assert TakeVarintBytes(s) == Err(Underflow(len));
    TakeAny(a, u, s);
    TakeAny(a, u, b + s);
    TakeAny(b, v, s);
    Dispatched(0x0a, a + s);
    Dispatched(0x0b, a + s);
    Dispatched(0x0e, a + (b + s));
    Dispatched(0x0f, a + (b + s));
    hide TakeVarintBytes, Body;
  }

  /** The first bytes in a packet that are no frame decide its outcome, with their error. */
  lemma {:induction false} FirstErrorWins(fs: seq<Frame>, bad: Data)
    requires forall f :: f in fs ==> Writable(f)
    requires FrameLaws.ListRecoverable(fs, bad) && bad != [] && TakeFrame(bad).Err?
    ensures FramesOf(ListWire(fs, bad)) == Err(TakeFrame(bad).error)
    decreases |fs|
  {
    hide TakeFrame, Writable, Recoverable, WireTo;
    if fs != [] {
      var rest := ListWire(fs[1..], bad);
      FirstErrorWins(fs[1..], bad);
      FrameLaws.FrameBack(fs[0], rest);
      FrameLaws.WireNonEmpty(fs[0], rest);
    }
  }

  // ------------------------------------------------------------ locality

  lemma MoreVarint(s: Data, u: Data)
    requires TakeVarint(s).Ok?
    ensures TakeVarint(s + u) == Ok((TakeVarint(s).value.0, TakeVarint(s).value.1 + u))
    ensures VarInt.Decode(s).Ok? && VarInt.Decode(s + u) == VarInt.Decode(s)
  {
    var n := VarInt.Decode(s).value.1;
    VarInt.DecodeMeaning(s);
    assert forall i :: 0 <= i < n ==> (s + u)[i] == s[i];
    assert (s + u)[n..] == s[n..] + u;
  }

  lemma MoreBytes(s: Data, n: nat, u: Data)
    requires TakeBytes(s, n).Ok?
    ensures TakeBytes(s + u, n) == Ok((TakeBytes(s, n).value.0, TakeBytes(s, n).value.1 + u))
  {
    assert (s + u)[..n] == s[..n] && (s + u)[n..] == s[n..] + u;
  }

  lemma MoreVarintBytes(s: Data, u: Data)
    requires TakeVarintBytes(s).Ok?
    ensures TakeVarintBytes(s + u) == Ok((TakeVarintBytes(s).value.0, TakeVarintBytes(s).value.1 + u))
  {
    hide TakeVarint, TakeBytes;
    MoreVarint(s, u);
    MoreBytes(TakeVarint(s).value.1, TakeVarint(s).value.0, u);
  }

  lemma {:induction false} MoreRanges(count: nat, s: Data, u: Data)
    requires TakeRanges(count, s).Ok?
    ensures TakeRanges(count, s + u) == Ok((TakeRanges(count, s).value.0, TakeRanges(count, s).value.1 + u))
  {
    hide TakeVarint;
    if count > 0 {
      var s1 := TakeVarint(s).value.1;
      MoreVarint(s, u);
      MoreVarint(s1, u);
      MoreRanges(count - 1, TakeVarint(s1).value.1, u);
    }
  }

  /** The result of a body reader with more bytes behind it. */
  ghost predicate More(r: Result<(Frame, Data), FrameError>, r2: Result<(Frame, Data), FrameError>, u: Data)
  {
    r.Ok? ==> r2 == Ok((r.value.0, r.value.1 + u))
  }

  lemma MoreAck(ecn: bool, s: Data, u: Data)
    ensures More(AckBody(ecn, s), AckBody(ecn, s + u), u)
  {
    hide TakeVarint, TakeRanges;
    if AckBody(ecn, s).Ok? {
      var s1 := TakeVarint(s).value.1;
      var s2 := TakeVarint(s1).value.1;
      var (count, s3) := TakeVarint(s2).value;
      var s4 := TakeVarint(s3).value.1;
      var s5 := TakeRanges(count, s4).value.1;
      MoreVarint(s, u);
      MoreVarint(s1, u);
      MoreVarint(s2, u);
      MoreVarint(s3, u);
      MoreRanges(count, s4, u);
      if ecn {
        MoreVarint(s5, u);
        MoreVarint(TakeVarint(s5).value.1, u);
        MoreVarint(TakeVarint(TakeVarint(s5).value.1).value.1, u);
      }
    }
  }

  lemma MoreIntegers(ft: nat, s: Data, u: Data)
    requires ft == 0x04 || ft == 0x05 || 0x10 <= ft <= 0x17 || ft == 0x19
    ensures More(VarintBody(ft, s), VarintBody(ft, s + u), u)
  {
    hide TakeVarint;
    if TakeVarint(s).Ok? {
      var s1 := TakeVarint(s).value.1;
      MoreVarint(s, u);
      if TakeVarint(s1).Ok? {
        MoreVarint(s1, u);
        if TakeVarint(TakeVarint(s1).value.1).Ok? {
          MoreVarint(TakeVarint(s1).value.1, u);
        }
      }
    }
  }

  lemma MoreStream(ft: nat, s: Data, u: Data)
    requires ft / 2 % 2 == 1
    ensures More(StreamBody(ft, s), StreamBody(ft, s + u), u)
  {
    hide TakeVarint, TakeVarintBytes;
    if StreamBody(ft, s).Ok? {
      var s1 := TakeVarint(s).value.1;
      MoreVarint(s, u);
      if ft / 4 % 2 == 1 {
        MoreVarint(s1, u);
        MoreVarintBytes(TakeVarint(s1).value.1, u);
      } else {
        MoreVarintBytes(s1, u);
      }
    }
  }

  lemma MoreNewConnectionId(s: Data, u: Data)
    ensures More(NewConnectionIdBody(s), NewConnectionIdBody(s + u), u)
  {
    hide TakeVarint, TakeBytes;
    if NewConnectionIdBody(s).Ok? {
      var s1 := TakeVarint(s).value.1;
      var s2 := TakeVarint(s1).value.1;
      MoreVarint(s, u);
      MoreVarint(s1, u);
      assert (s2 + u)[1..] == s2[1..] + u;
      MoreBytes(s2[1..], s2[0], u);
      MoreBytes(TakeBytes(s2[1..], s2[0]).value.1, 16, u);
    }
  }

  lemma MoreClose(isApp: bool, s: Data, u: Data)
    ensures More(CloseBody(isApp, s), CloseBody(isApp, s + u), u)
  {
    hide TakeVarint, TakeVarintBytes;
    if CloseBody(isApp, s).Ok? {
      var s1 := TakeVarint(s).value.1;
      MoreVarint(s, u);
      if isApp {
        MoreVarintBytes(s1, u);
      } else {
        MoreVarint(s1, u);
        MoreVarintBytes(TakeVarint(s1).value.1, u);
      }
    }
  }

  lemma MoreOthers(s: Data, u: Data)
    ensures More(CryptoBody(s), CryptoBody(s + u), u) && More(NewTokenBody(s), NewTokenBody(s + u), u)
    ensures forall challenge :: More(PathBody(challenge, s), PathBody(challenge, s + u), u)
  {
    hide TakeVarint, TakeVarintBytes, TakeBytes;
    if CryptoBody(s).Ok? {
      MoreVarint(s, u);
      MoreVarintBytes(TakeVarint(s).value.1, u);
    }
    if NewTokenBody(s).Ok? {
      MoreVarintBytes(s, u);
    }
    if TakeBytes(s, 8).Ok? {
      MoreBytes(s, 8, u);
    }
  }

  /** A STREAM frame without a length: it runs to the end of what there is. */
  predicate RunsToEnd(s: Data)
  {
    VarInt.Decode(s).Ok? &&
    var ft := VarInt.Decode(s).value.0 % 256;
    ft == 0x08 || ft == 0x09 || ft == 0x0c || ft == 0x0d
  }

  lemma MoreBody(ty: nat, s: Data, u: Data)
    requires var ft := ty % 256; !(ft == 0x08 || ft == 0x09 || ft == 0x0c || ft == 0x0d)
    ensures More(Body(ty, s), Body(ty, s + u), u)
  {
    hide AckBody, VarintBody, StreamBody, NewConnectionIdBody, CloseBody, CryptoBody, NewTokenBody, PathBody;
    var ft := ty % 256;
    MoreAck(ty % 2 == 1, s, u);
    if ft == 0x04 || ft == 0x05 || 0x10 <= ft <= 0x17 || ft == 0x19 {
      MoreIntegers(ft, s, u);
    }
    if 0x08 <= ft <= 0x0f {
      MoreStream(ft, s, u);
    }
    MoreNewConnectionId(s, u);
    MoreClose(ft == 0x1d, s, u);
    MoreOthers(s, u);
  }

  /** What is read at the front of a packet does not depend on what follows it, unless it is a
      STREAM frame without a length. */
  lemma ReadIsLocal(s: Data, u: Data)
    requires TakeFrame(s).Ok? && !RunsToEnd(s)
    ensures TakeFrame(s + u) == Ok((TakeFrame(s).value.0, TakeFrame(s).value.1 + u))
    ensures !RunsToEnd(s + u)
  {
    hide Body, VarInt.Decode, VarInt.EncodedLen;
    MoreVarint(s, u);
    assert s != [] by { VarInt.DecodeMeaning(s); }
    assert (s + u)[1..] == s[1..] + u;
    MoreBody(VarInt.Decode(s).value.0, s[1..], u);
  }

  /** A frame that is cut short anywhere is refused, unless it is such a STREAM frame: no frame is
      the beginning of another. */
  lemma CutShortRefused(s: Data, k: nat)
    requires TakeFrame(s).Ok? && !RunsToEnd(s) && k < |s| - |TakeFrame(s).value.1|
    ensures TakeFrame(s[..k]).Err?
  {
    hide TakeFrame, RunsToEnd;
    if TakeFrame(s[..k]).Ok? {
      assert s[..k] + s[k..] == s;
      if !RunsToEnd(s[..k]) {
        ReadIsLocal(s[..k], s[k..]);
      } else {
        SameType(s, k);
      }
    }
  }

  lemma SameType(s: Data, k: nat)
    requires k <= |s| && RunsToEnd(s[..k])
    ensures RunsToEnd(s)
  {
    assert s[..k] + s[k..] == s;
    MoreVarint(s[..k], s[k..]);
  }
}
