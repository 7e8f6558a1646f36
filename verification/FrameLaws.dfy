/** Round trips and canonical forms of frames and frame lists. */
module FrameLaws {
  import opened Wrappers
  import opened Bytes
  import opened Frames
  import VarInt

  // ------------------------------------------------------------ fields

  lemma TakeEnc(v: nat, t: Data)
    requires Fits(v)
    ensures TakeVarint(VarInt.Enc(v) + t) == Ok((v, t))
  {
    VarInt.RoundTrip(v, t);
    assert (VarInt.Enc(v) + t)[VarInt.EncodedLen(v)..] == t;
  }

  lemma TakeRaw(d: Data, t: Data)
    ensures TakeBytes(d + t, |d|) == Ok((d, t))
  {
    assert (d + t)[..|d|] == d && (d + t)[|d|..] == t;
  }

  lemma TakeBytesWire(d: Data, t: Data)
    requires Fits(|d|)
    ensures TakeVarintBytes(BytesWire(d, t)) == Ok((d, t))
  {
    TakeEnc(|d|, d + t);
    TakeRaw(d, t);
  }

  lemma {:induction false} TakeRangesWire(ranges: seq<AckRange>, t: Data)
    requires forall r :: r in ranges ==> Fits(r.gap) && Fits(r.range)
    ensures TakeRanges(|ranges|, RangesWire(ranges, t)) == Ok((ranges, t))
  {
    if ranges != [] {
      var rest := RangesWire(ranges[1..], t);
      TakeEnc(ranges[0].gap, VarInt.Enc(ranges[0].range) + rest);
      TakeEnc(ranges[0].range, rest);
      TakeRangesWire(ranges[1..], t);
      assert ranges == [ranges[0]] + ranges[1..];
    }
  }

  lemma TakeEcnWire(e: EcnCounts, t: Data)
    requires Fits(e.ect0) && Fits(e.ect1) && Fits(e.ecnCe)
    ensures TakeEcn(EcnWire(Some(e), t)) == Ok((e, t))
  {
    TakeEnc(e.ect0, VarInt.Enc(e.ect1) + (VarInt.Enc(e.ecnCe) + t));
    TakeEnc(e.ect1, VarInt.Enc(e.ecnCe) + t);
    TakeEnc(e.ecnCe, t);
  }

  // ------------------------------------------------------------ one frame

  lemma AckBack(f: Frame, t: Data)
    requires f.Ack? && Writable(f) && Recoverable(f, t)
    ensures AckBody(f.ecn.Some?, AckWire(f, t)) == Ok((f, t))
  {
    hide TakeVarint, TakeBytes, TakeVarintBytes, VarInt.Enc, BytesWire;
    var s5 := EcnWire(f.ecn, t);
    var s4 := RangesWire(f.ranges[1..], s5);
    var s3 := VarInt.Enc(f.ranges[0].range) + s4;
    var s2 := VarInt.Enc(|f.ranges| - 1) + s3;
    var s1 := VarInt.Enc(f.ackDelay) + s2;
    TakeEnc(f.largestAck, s1);
    TakeEnc(f.ackDelay, s2);
    TakeEnc(|f.ranges| - 1, s3);
    TakeEnc(f.ranges[0].range, s4);
    TakeRangesWire(f.ranges[1..], s5);
    assert [AckRange(0, f.ranges[0].range)] + f.ranges[1..] == f.ranges;
    if f.ecn.Some? {
      TakeEcnWire(f.ecn.value, t);
    }
  }

  /** A STREAM frame without data carries no length: it swallows what follows it. */
  lemma StreamBack(f: Frame, t: Data)
    requires f.Stream? && Writable(f)
    ensures StreamBody(StreamType(f), StreamWire(f, t))
         == if f.data == [] then Ok((f.(data := t), [])) else Ok((f, t))
  {
    hide TakeVarint, TakeVarintBytes, VarInt.Enc, BytesWire, StreamType;
    var s2 := if f.data != [] then BytesWire(f.data, t) else t;
    var s1 := (if f.offset > 0 then VarInt.Enc(f.offset) else []) + s2;
    TakeEnc(f.streamId, s1);
    StreamTypeBits(f);
    if f.offset > 0 {
      TakeEnc(f.offset, s2);
    } else {
      assert s1 == s2;
    }
    TakeBytesWire(f.data, t);
  }

  lemma StreamTypeBits(f: Frame)
    requires f.Stream?
    ensures var ft := StreamType(f);
            && (ft % 2 == 1 <==> f.fin) && (ft / 4 % 2 == 1 <==> f.offset > 0)
            && (ft / 2 % 2 == 1 <==> f.data != []) && 0x08 <= ft <= 0x0f
  {
  }

  lemma NewConnectionIdBack(f: Frame, t: Data)
    requires f.NewConnectionId? && Writable(f) && Recoverable(f, t)
    ensures NewConnectionIdBody(NewConnectionIdWire(f, t)) == Ok((f, t))
  {
    hide TakeVarint, TakeBytes, TakeVarintBytes, VarInt.Enc, BytesWire;
    var s4 := f.resetToken + t;
    var s3 := f.id + s4;
    var s2 := [|f.id|] + s3;
    TakeEnc(f.sequence, VarInt.Enc(f.retirePriorTo) + s2);
    TakeEnc(f.retirePriorTo, s2);
    TakeOne(|f.id|, s3);
    TakeRaw(f.id, s4);
    TakeRaw(f.resetToken, t);
  }

  lemma TakeOne(b: Byte, t: Data)
    ensures TakeU8([b] + t) == Ok((b, t))
  {
    assert ([b] + t)[1..] == t;
  }

  lemma CloseBack(f: Frame, t: Data)
    requires f.ConnectionClose? && Writable(f)
    ensures CloseBody(f.frameType.None?, CloseWire(f, t)) == Ok((f, t))
  {
    hide TakeVarint, TakeBytes, TakeVarintBytes, VarInt.Enc, BytesWire;
    var s1 := BytesWire(f.reason, t);
    TakeBytesWire(f.reason, t);
    if f.frameType.Some? {
      TakeEnc(f.errorCode, VarInt.Enc(f.frameType.value) + s1);
      TakeEnc(f.frameType.value, s1);
    } else {
      TakeEnc(f.errorCode, s1);
    }
  }

  predicate VarintsOnly(f: Frame)
  {
    Varints(f) != []
  }

  lemma VarintsBack(f: Frame, t: Data)
    requires VarintsOnly(f) && Writable(f)
    ensures VarintBody(TypeOf(f), VarintsWire(Varints(f), t)) == Ok((f, t))
  {
    hide TakeVarint, TakeBytes, TakeVarintBytes, VarInt.Enc, BytesWire;
    var vs := Varints(f);
    VarintsStep(vs, t);
    if |vs| >= 2 {
      VarintsStep(vs[1..], t);
      if |vs| == 3 {
        VarintsStep(vs[1..][1..], t);
      }
    }
  }

  lemma VarintsStep(vs: seq<nat>, t: Data)
    requires vs != [] && Fits(vs[0])
    ensures TakeVarint(VarintsWire(vs, t)) == Ok((vs[0], VarintsWire(vs[1..], t)))
  {
    hide TakeVarint, VarInt.Enc;
    TakeEnc(vs[0], VarintsWire(vs[1..], t));
  }

  lemma CryptoBack(f: Frame, t: Data)
    requires f.Crypto? && Writable(f)
    ensures CryptoBody(VarInt.Enc(f.offset) + BytesWire(f.data, t)) == Ok((f, t))
  {
    hide TakeVarint, TakeVarintBytes, VarInt.Enc, BytesWire;
    TakeEnc(f.offset, BytesWire(f.data, t));
    TakeBytesWire(f.data, t);
  }

  lemma NewTokenBack(f: Frame, t: Data)
    requires f.NewToken? && Writable(f)
    ensures NewTokenBody(BytesWire(f.token, t)) == Ok((f, t))
  {
    hide TakeVarintBytes, BytesWire;
    TakeBytesWire(f.token, t);
  }

  lemma PathBack(f: Frame, t: Data)
    requires f.PathChallenge? || f.PathResponse?
    ensures PathBody(f.PathChallenge?, f.path + t) == Ok((f, t))
  {
    hide TakeBytes;
    TakeRaw(f.path, t);
  }

  /** What follows the type byte reads back as the frame it was written from. */
  lemma BodyBack(f: Frame, t: Data)
    requires Writable(f) && Recoverable(f, t)
    ensures Body(TypeOf(f), BodyWire(f, t)) == Ok((f, t))
  {
    hide AckBody, CryptoBody, NewTokenBody, StreamBody, NewConnectionIdBody, CloseBody, PathBody,
         VarintBody, AckWire, StreamWire, NewConnectionIdWire, CloseWire, BytesWire, VarInt.Enc,
         StreamType;
    match f
    case Ack(_, _, _, _) => AckBack(f, t);
    case Crypto(_, _) => CryptoBack(f, t);
    case NewToken(_) => NewTokenBack(f, t);
    case Stream(_, _, data, _) =>
      StreamBack(f, t);
      StreamTypeBits(f);
    case NewConnectionId(_, _, _, _) => NewConnectionIdBack(f, t);
    case PathChallenge(_) => PathBack(f, t);
    case PathResponse(_) => PathBack(f, t);
    case ConnectionClose(_, _, _) => CloseBack(f, t);
    case Padding =>
    case Ping =>
    case HandshakeDone =>
    case _ => VarintsBack(f, t);
  }

  /** A type byte below 64 is its own varint. */
  lemma TakeTyped(b: Byte, s: Data)
    requires b < 64
    ensures TakeFrame([b] + s) == Body(b, s)
  {
    hide Body;
    assert ([b] + s)[1..] == s;
  }

  /** The parser reads a written frame back and leaves what follows it. */
  lemma FrameBack(f: Frame, t: Data)
    requires Writable(f) && Recoverable(f, t)
    ensures TakeFrame(WireTo(f, t)) == Ok((f, t))
  {
    hide Body, BodyWire, TakeFrame;
    BodyBack(f, t);
    TakeTyped(TypeOf(f), BodyWire(f, t));
  }

  // ------------------------------------------------------------ parser image

  /** Every frame the parser can return, on any bytes. The only integer that may lack a
      varint encoding is the length of a STREAM frame that ran to the end of its packet. */
  predicate Parsed(f: Frame)
  {
    && (f.Ack? ==> f.ranges != [] && f.ranges[0].gap == 0)
    && (f.NewConnectionId? ==> 1 <= |f.id| <= 20)
    && (Writable(f) <==> (f.Stream? ==> Fits(|f.data|)))
  }

  lemma {:induction false} RangesImage(count: nat, s: Data)
    requires TakeRanges(count, s).Ok?
    ensures forall r :: r in TakeRanges(count, s).value.0 ==> Fits(r.gap) && Fits(r.range)
  {
    if count > 0 {
      var s2 := TakeVarint(TakeVarint(s).value.1).value.1;
      RangesImage(count - 1, s2);
    }
  }

  lemma AckImage(ecn: bool, s: Data)
    requires AckBody(ecn, s).Ok?
    ensures var f := AckBody(ecn, s).value.0;
            f.Ack? && f.ranges != [] && f.ranges[0].gap == 0 && Writable(f)
  {
    hide VarInt.Decode;
    var s4 := TakeVarint(TakeVarint(TakeVarint(TakeVarint(s).value.1).value.1).value.1).value.1;
    RangesImage(TakeVarint(TakeVarint(TakeVarint(s).value.1).value.1).value.0, s4);
  }

  lemma BodyImage(frameType: nat, s: Data)
    requires Body(frameType, s).Ok?
    ensures Parsed(Body(frameType, s).value.0)
  {
    hide VarInt.Decode, AckBody, VarintBody, StreamBody, NewConnectionIdBody, CloseBody, TakeBytes,
         TakeVarint, TakeVarintBytes;
    var ft := frameType % 256;
    if ft == 0x02 || ft == 0x03 {
      AckImage(frameType % 2 == 1, s);
    } else if ft == 0x04 || ft == 0x05 || 0x10 <= ft <= 0x17 || ft == 0x19 {
      VarintImage(ft, s);
    } else if 0x08 <= ft <= 0x0f {
      StreamImage(ft, s);
    } else if ft == 0x18 {
      NewConnectionIdImage(s);
    } else if ft == 0x1c || ft == 0x1d {
      CloseImage(ft == 0x1d, s);
    }
  }

  lemma VarintImage(ft: nat, s: Data)
    requires (ft == 0x04 || ft == 0x05 || 0x10 <= ft <= 0x17 || ft == 0x19) && VarintBody(ft, s).Ok?
    ensures Parsed(VarintBody(ft, s).value.0)
  {
    hide TakeVarint;
  }

  lemma StreamImage(ft: nat, s: Data)
    requires StreamBody(ft, s).Ok?
    ensures Parsed(StreamBody(ft, s).value.0)
  {
    hide TakeVarint, TakeVarintBytes;
  }

  lemma NewConnectionIdImage(s: Data)
    requires NewConnectionIdBody(s).Ok?
    ensures Parsed(NewConnectionIdBody(s).value.0)
  {
    hide TakeVarint, TakeBytes;
  }

  lemma CloseImage(isApp: bool, s: Data)
    requires CloseBody(isApp, s).Ok?
    ensures Parsed(CloseBody(isApp, s).value.0)
  {
    hide TakeVarint, TakeVarintBytes;
  }

  /** The parser consumes at least one byte, and only frames the writer accepts come out. */
  lemma FrameImage(s: Data)
    requires TakeFrame(s).Ok?
    ensures Parsed(TakeFrame(s).value.0)
    ensures |TakeFrame(s).value.1| < |s|
  {
    hide Body, Parsed;
    BodyImage(VarInt.Decode(s).value.0, s[1..]);
  }

  lemma {:induction false} RangesErrors(count: nat, s: Data)
    ensures TakeRanges(count, s).Err? ==> TakeRanges(count, s).error.BadVarInt?
  {
    hide VarInt.Decode;
    if count > 0 && TakeVarint(s).Ok? && TakeVarint(TakeVarint(s).value.1).Ok? {
      RangesErrors(count - 1, TakeVarint(TakeVarint(s).value.1).value.1);
    }
  }

  lemma AckErrors(ecn: bool, s: Data)
    ensures AckBody(ecn, s).Err? ==> AckBody(ecn, s).error.BadVarInt?
  {
    hide VarInt.Decode, TakeRanges;
    if TakeVarint(s).Ok? {
      var s1 := TakeVarint(s).value.1;
      if TakeVarint(s1).Ok? && TakeVarint(TakeVarint(s1).value.1).Ok? {
        var (count, s3) := TakeVarint(TakeVarint(s1).value.1).value;
        if TakeVarint(s3).Ok? {
          RangesErrors(count, TakeVarint(s3).value.1);
        }
      }
    }
  }

  /** An error in the fields of a frame, not in its type. */
  predicate FieldError(e: FrameError)
  {
    e.BadVarInt? || e.Underflow? || e.InvalidCidLength?
  }

  lemma IntegerErrors(ft: nat, s: Data)
    ensures ft == 0x04 || ft == 0x05 || 0x10 <= ft <= 0x17 || ft == 0x19 ==>
              (VarintBody(ft, s).Err? ==> FieldError(VarintBody(ft, s).error))
  {
    hide VarInt.Decode;
  }

  lemma BytesErrors(s: Data)
    ensures CryptoBody(s).Err? ==> FieldError(CryptoBody(s).error)
    ensures NewTokenBody(s).Err? ==> FieldError(NewTokenBody(s).error)
    ensures NewConnectionIdBody(s).Err? ==> FieldError(NewConnectionIdBody(s).error)
  {
    hide VarInt.Decode;
  }

  lemma FlaggedErrors(ft: nat, flag: bool, s: Data)
    ensures StreamBody(ft, s).Err? ==> FieldError(StreamBody(ft, s).error)
    ensures PathBody(flag, s).Err? ==> FieldError(PathBody(flag, s).error)
    ensures CloseBody(flag, s).Err? ==> FieldError(CloseBody(flag, s).error)
  {
    hide VarInt.Decode;
  }

  /** What stands behind a known type is refused only for its fields. */
  lemma BodyErrors(frameType: nat, s: Data)
    ensures Body(frameType, s).Err? ==> !Body(frameType, s).error.NonMinimalType?
    ensures frameType % 256 < 0x1f && Body(frameType, s).Err? ==> FieldError(Body(frameType, s).error)
  {
    hide AckBody, VarintBody, StreamBody, NewConnectionIdBody, CloseBody, CryptoBody, NewTokenBody,
         PathBody;
    var ft := frameType % 256;
    if ft == 0x02 || ft == 0x03 {
      AckErrors(frameType % 2 == 1, s);
    } else if ft == 0x04 || ft == 0x05 || 0x10 <= ft <= 0x17 || ft == 0x19 {
      IntegerErrors(ft, s);
    } else if 0x08 <= ft <= 0x0f || ft == 0x1a || ft == 0x1b {
      FlaggedErrors(ft, ft == 0x1a, s);
    } else if ft == 0x1c || ft == 0x1d {
      FlaggedErrors(ft, ft == 0x1d, s);
    } else {
      BytesErrors(s);
    }
  }

  /** The check for non-minimal frame types never fires: it asks how long the decoded value's
      shortest encoding is, not how long its encoding was. */
  lemma TypeCheckNeverFires(s: Data)
    ensures TakeFrame(s).Err? ==> !TakeFrame(s).error.NonMinimalType?
  {
    hide Body;
    if s != [] && VarInt.Decode(s).Ok? {
      BodyErrors(VarInt.Decode(s).value.0, s[1..]);
    }
  }

  /** Every type in every long encoding is accepted with one byte of it skipped: the rest of the
      type is read as the frame's body, and behind a frame that has none it is left to be read
      as further frames. */
  lemma LongTypeMisread(s: Data)
    requires VarInt.Decode(s).Ok? && VarInt.Decode(s).value.1 > 1
    ensures var (ty, n) := VarInt.Decode(s).value;
            && s[1..] == s[1..n] + s[n..] && TakeFrame(s) == Body(ty, s[1..n] + s[n..])
            && (ty % 256 == 0x00 ==> TakeFrame(s) == Ok((Padding, s[1..n] + s[n..])))
            && (ty % 256 == 0x01 ==> TakeFrame(s) == Ok((Ping, s[1..n] + s[n..])))
            && (ty % 256 == 0x1e ==> TakeFrame(s) == Ok((HandshakeDone, s[1..n] + s[n..])))
  {
    var n := VarInt.Decode(s).value.1;
    VarInt.ShortestForm(s);
    assert s[1..] == s[1..n] + s[n..];
    hide VarInt.Decode, AckBody, VarintBody, StreamBody, NewConnectionIdBody, CloseBody, CryptoBody,
         NewTokenBody, PathBody;
  }

  /** Rewriting a parsed frame normalises it: the new bytes alone parse to the same frame. */
  lemma Canonical(s: Data)
    requires TakeFrame(s).Ok?
    ensures var f := TakeFrame(s).value.0;
            (f.Stream? ==> Fits(|f.data|)) ==> Writable(f) && TakeFrame(Wire(f)) == Ok((f, []))
  {
    hide TakeFrame, Writable, WireTo;
    FrameImage(s);
    var f := TakeFrame(s).value.0;
    if f.Stream? ==> Fits(|f.data|) {
      FrameBack(f, []);
    }
  }

  lemma StreamDispatch(b: Byte, s: Data)
    requires 0x08 <= b <= 0x0f
    ensures Body(b, s) == StreamBody(b, s)
  {
    hide AckBody, CryptoBody, NewTokenBody, StreamBody, NewConnectionIdBody, CloseBody, PathBody,
         VarintBody;
  }

  /** A frame that is not recoverable before `t` is never what the parser reads there. */
  lemma LostFrame(f: Frame, t: Data)
    requires Writable(f) && !Recoverable(f, t)
    ensures TakeFrame(WireTo(f, t)).Ok? ==> TakeFrame(WireTo(f, t)).value.0 != f
  {
    hide Body, Writable, StreamBody, StreamWire, StreamType, TakeFrame;
    if f.Stream? {
      StreamBack(f, t);
      StreamTypeBits(f);
      TakeTyped(TypeOf(f), BodyWire(f, t));
      StreamDispatch(TypeOf(f), BodyWire(f, t));
    } else if TakeFrame(WireTo(f, t)).Ok? {
      FrameImage(WireTo(f, t));
    }
  }

  /** A frame that can be written survives exactly when it is recoverable before `t`. */
  lemma FrameRoundTrip(f: Frame, t: Data)
    requires Writable(f)
    ensures TakeFrame(WireTo(f, t)) == Ok((f, t)) <==> Recoverable(f, t)
  {
    hide TakeFrame, WireTo, Recoverable, Writable;
    if Recoverable(f, t) {
      FrameBack(f, t);
    } else {
      LostFrame(f, t);
    }
  }

  // ------------------------------------------------------------ frame lists

  /** Every frame of `fs` is recoverable where it stands, with `t` after the last one. */
  predicate ListRecoverable(fs: seq<Frame>, t: Data)
  {
    fs == [] || (Recoverable(fs[0], ListWire(fs[1..], t)) && ListRecoverable(fs[1..], t))
  }

  function Pads(k: nat): (fs: seq<Frame>)
    ensures |fs| == k && forall i :: 0 <= i < k ==> fs[i] == Padding
  {
    seq(k, _ => Padding)
  }

  lemma {:induction false} PadsBack(k: nat)
    ensures FramesOf(Zeros(k)) == Ok(Pads(k))
  {
    hide TakeFrame;
    if k > 0 {
      assert TakeFrame(Zeros(k)) == Ok((Padding, Zeros(k - 1))) by {
        hide Recoverable;
        assert Zeros(k) == [0] + Zeros(k - 1);
        FrameBack(Padding, Zeros(k - 1));
      }
      PadsBack(k - 1);
      assert Pads(k) == [Padding] + Pads(k - 1);
    }
  }

  /** A written frame list, padded, is read back as the same list and `k` PADDING frames,
      exactly when every frame in it is recoverable where it stands. */
  lemma {:induction false} ListRoundTrip(fs: seq<Frame>, k: nat)
    requires forall f :: f in fs ==> Writable(f)
    ensures FramesOf(ListWire(fs, Zeros(k))) == Ok(fs + Pads(k))
            <==> ListRecoverable(fs, Zeros(k))
  {
    hide TakeFrame, Writable, WireTo, Recoverable, Pads, Zeros;
    if fs == [] {
      PadsBack(k);
      assert fs + Pads(k) == Pads(k);
    } else {
      var rest := ListWire(fs[1..], Zeros(k));
      ListRoundTrip(fs[1..], k);
      assert fs + Pads(k) == [fs[0]] + (fs[1..] + Pads(k));
      WireNonEmpty(fs[0], rest);
      if Recoverable(fs[0], rest) {
        FrameBack(fs[0], rest);
        assert (fs + Pads(k))[1..] == fs[1..] + Pads(k);
        assert forall more :: ([fs[0]] + more)[1..] == more;
      } else {
        LostFrame(fs[0], rest);
        assert (fs + Pads(k))[0] == fs[0];
        assert forall f, more: seq<Frame> :: ([f] + more)[0] == f;
      }
    }
  }

  lemma WireNonEmpty(f: Frame, t: Data)
    ensures WireTo(f, t) != []
  {
    hide TypeOf, BodyWire;
  }

  // ------------------------------------------------------------ what follows a frame

  lemma {:induction false} RangesTail(ranges: seq<AckRange>, t: Data, u: Data)
    ensures RangesWire(ranges, t + u) == RangesWire(ranges, t) + u
  {
    hide VarInt.Enc;
    if ranges != [] {
      RangesTail(ranges[1..], t, u);
    }
  }

  lemma {:induction false} VarintsTail(vs: seq<nat>, t: Data, u: Data)
    ensures VarintsWire(vs, t + u) == VarintsWire(vs, t) + u
  {
    hide VarInt.Enc;
    if vs != [] {
      VarintsTail(vs[1..], t, u);
    }
  }

  lemma AckTail(f: Frame, u: Data)
    requires f.Ack?
    ensures AckWire(f, u) == AckWire(f, []) + u
  {
    hide VarInt.Enc;
    if f.ranges != [] {
      var e := EcnWire(f.ecn, []);
      assert EcnWire(f.ecn, u) == e + u;
      RangesTail(f.ranges[1..], e, u);
    }
  }

  lemma BytesTail(d: Data, u: Data)
    ensures BytesWire(d, u) == BytesWire(d, []) + u
  {
    hide VarInt.Enc;
    assert d + [] == d && VarInt.Enc(|d|) + (d + u) == VarInt.Enc(|d|) + d + u;
  }

  lemma StreamTail(f: Frame, u: Data)
    requires f.Stream?
    ensures StreamWire(f, u) == StreamWire(f, []) + u
  {
    hide VarInt.Enc, BytesWire;
    BytesTail(f.data, u);
  }

  lemma NewConnectionIdTail(f: Frame, u: Data)
    requires f.NewConnectionId?
    ensures NewConnectionIdWire(f, u) == NewConnectionIdWire(f, []) + u
  {
    hide VarInt.Enc;
  }

  lemma CloseTail(f: Frame, u: Data)
    requires f.ConnectionClose?
    ensures CloseWire(f, u) == CloseWire(f, []) + u
  {
    hide VarInt.Enc, BytesWire;
    BytesTail(f.reason, u);
  }

  lemma BodyTail(f: Frame, u: Data)
    ensures BodyWire(f, u) == BodyWire(f, []) + u
  {
    hide Varints;
    hide VarInt.Enc, AckWire, VarintsWire, StreamWire, NewConnectionIdWire, CloseWire, BytesWire;
    match f
    case Ack(_, _, _, _) => AckTail(f, u);
    case Stream(_, _, _, _) => StreamTail(f, u);
    case NewConnectionId(_, _, _, _) => NewConnectionIdTail(f, u);
    case ConnectionClose(_, _, _) => CloseTail(f, u);
    case Crypto(offset, data) =>
      BytesTail(data, u);
      assert VarInt.Enc(offset) + (BytesWire(data, []) + u) == VarInt.Enc(offset) + BytesWire(data, []) + u;
    case NewToken(token) => BytesTail(token, u);
    case PathChallenge(path) => assert path + [] == path;
    case PathResponse(path) => assert path + [] == path;
    case _ =>
      VarintsTail(Varints(f), [], u);
      assert [] + u == u;
  }

  /** The bytes of a frame do not depend on what follows it. */
  lemma WireTail(f: Frame, u: Data)
    ensures WireTo(f, u) == Wire(f) + u
  {
    hide BodyWire, TypeOf;
    BodyTail(f, u);
  }

  lemma {:induction false} ListTail(fs: seq<Frame>, t: Data)
    ensures ListWire(fs, t) == ListWire(fs, []) + t
  {
    hide TypeOf, BodyWire;
    if fs != [] {
      ListTail(fs[1..], t);
      WireTail(fs[0], ListWire(fs[1..], t));
      WireTail(fs[0], ListWire(fs[1..], []));
      hide Wire, WireTo;
    }
  }
}
