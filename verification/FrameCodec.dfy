/**
 The frame parser and writer of `frame.rs`: a cursor that advances over the input, and a
 buffer that the writer appends to. Both are proved against the wire format of `Frames`.
 */
module FrameCodec {
  import opened Wrappers
  import opened Bytes
  import opened FramePieces
  import opened Frames
  import VarInt
  import FrameLaws

  // ------------------------------------------------------------ reading

  /** The unread part of a packet payload: the `&mut &[u8]` of the `read_*` helpers. */
  class Cursor {
    const input: Data
    var rest: Data

    /** What is left is a suffix of the input. */
    predicate Valid()
      reads this
    {
      |rest| <= |input| && rest == input[|input| - |rest|..]
    }

    constructor (s: Data)
      ensures Valid() && rest == s && input == s
    {
      input := s;
      rest := s;
    }

    method ReadVarint() returns (r: Result<nat, FrameError>)
      requires Valid()
      modifies this
      ensures Valid()
      ensures match TakeVarint(old(rest))
              case Ok((v, t)) => r == Ok(v) && rest == t
              case Err(e) => r == Err(e) && rest == old(rest)
    {
      match VarInt.Decode(rest)
      case Err(e) =>
        return Err(BadVarInt(e));
      case Ok((v, n)) =>
        VarInt.ShortestForm(rest);
        rest := rest[n..];
        return Ok(v);
    }

    method ReadU8() returns (r: Result<Byte, FrameError>)
      requires Valid()
      modifies this
      ensures Valid()
      ensures match TakeU8(old(rest))
              case Ok((v, t)) => r == Ok(v) && rest == t
              case Err(e) => r == Err(e) && rest == old(rest)
    {
      if rest == [] {
        return Err(Underflow(1));
      }
      var v := rest[0];
      rest := rest[1..];
      return Ok(v);
    }

    method ReadBytes(n: nat) returns (r: Result<Data, FrameError>)
      requires Valid()
      modifies this
      ensures Valid()
      ensures match TakeBytes(old(rest), n)
              case Ok((v, t)) => r == Ok(v) && rest == t
              case Err(e) => r == Err(e) && rest == old(rest)
    {
      if |rest| < n {
        return Err(Underflow(n));
      }
      var v := rest[..n];
      rest := rest[n..];
      return Ok(v);
    }

    method ReadVarintBytes() returns (r: Result<Data, FrameError>)
      requires Valid()
      modifies this
      ensures Valid()
      ensures match TakeVarintBytes(old(rest))
              case Ok((v, t)) => r == Ok(v) && rest == t
              case Err(e) => r == Err(e)
    {
      hide TakeVarint, TakeBytes, Valid;
      var n :- ReadVarint();
      r := ReadBytes(n);
    }

    method ReadAck(ecn: bool) returns (r: Result<Frame, FrameError>)
      requires Valid()
      modifies this
      ensures Valid()
      ensures match AckBody(ecn, old(rest))
              case Ok((f, t)) => r == Ok(f) && rest == t
              case Err(e) => r == Err(e)
    {
      hide TakeVarint;
      var largest :- ReadVarint();
      var delay :- ReadVarint();
      var count :- ReadVarint();
      var first :- ReadVarint();
      ghost var s := rest;
      var ranges := [AckRange(0, first)];
      assert ranges == [AckRange(0, first)] + [];
      for i := 0 to count
        invariant Valid() && |ranges| == i + 1
        invariant Remaining(count - i, rest, ranges) == Remaining(count, s, [AckRange(0, first)])
      {
        ghost var before := rest;
        var gap :- ReadVarint();
        var range :- ReadVarint();
        RemainingStep(count - i, before, ranges);
        ranges := ranges + [AckRange(gap, range)];
      }
      assert ranges + [] == ranges;
      if ecn {
        var ect0 :- ReadVarint();
        var ect1 :- ReadVarint();
        var ce :- ReadVarint();
        return Ok(Ack(largest, delay, ranges, Some(EcnCounts(ect0, ect1, ce))));
      } else {
        return Ok(Ack(largest, delay, ranges, None));
      }
    }

    /** The ranges read once `count` more are appended to `before`, and what follows them. */
    static ghost function Remaining(count: nat, s: Data, before: seq<AckRange>)
      : Result<(seq<AckRange>, Data), FrameError>
    {
      match TakeRanges(count, s)
      case Ok((more, t)) => Ok((before + more, t))
      case Err(e) => Err(e)
    }

    static lemma RemainingStep(count: nat, s: Data, before: seq<AckRange>)
      requires count > 0
      ensures TakeVarint(s).Err? ==> Remaining(count, s, before) == Err(TakeVarint(s).error)
      ensures TakeVarint(s).Ok? ==>
                var (gap, s1) := TakeVarint(s).value;
                && (TakeVarint(s1).Err? ==> Remaining(count, s, before) == Err(TakeVarint(s1).error))
                && (TakeVarint(s1).Ok? ==>
                      var (range, s2) := TakeVarint(s1).value;
                      Remaining(count, s, before)
                      == Remaining(count - 1, s2, before + [AckRange(gap, range)]))
    {
      hide TakeVarint;
      assert forall x, more: seq<AckRange> :: before + ([x] + more) == before + [x] + more;
    }

    method ReadStream(ft: Byte) returns (r: Result<Frame, FrameError>)
      requires Valid()
      modifies this
      ensures Valid()
      ensures match StreamBody(ft, old(rest))
              case Ok((f, t)) => r == Ok(f) && rest == t
              case Err(e) => r == Err(e)
    {
      hide TakeVarint, TakeVarintBytes;
      var off := ft / 4 % 2 == 1;
      var len := ft / 2 % 2 == 1;
      var fin := ft % 2 == 1;
      var id :- ReadVarint();
      var offset := 0;
      if off {
        offset :- ReadVarint();
      }
      var data := [];
      if len {
        data :- ReadVarintBytes();
      } else {
        data := rest;
        rest := [];
      }
      return Ok(Stream(id, offset, data, fin));
    }

    method ReadNewConnectionId() returns (r: Result<Frame, FrameError>)
      requires Valid()
      modifies this
      ensures Valid()
      ensures match NewConnectionIdBody(old(rest))
              case Ok((f, t)) => r == Ok(f) && rest == t
              case Err(e) => r == Err(e)
    {
      hide TakeVarint, TakeU8;
      var sequence :- ReadVarint();
      var retire :- ReadVarint();
      var len :- ReadU8();
      if !(1 <= len <= 20) {
        return Err(InvalidCidLength(len));
      }
      var id :- ReadBytes(len);
      var token :- ReadBytes(16);
      return Ok(NewConnectionId(sequence, retire, id, token));
    }

    method ReadClose(isApp: bool) returns (r: Result<Frame, FrameError>)
      requires Valid()
      modifies this
      ensures Valid()
      ensures match CloseBody(isApp, old(rest))
              case Ok((f, t)) => r == Ok(f) && rest == t
              case Err(e) => r == Err(e)
    {
      hide TakeVarint, TakeVarintBytes;
      var code :- ReadVarint();
      var ty := None;
      if !isApp {
        var v :- ReadVarint();
        ty := Some(v);
      }
      var reason :- ReadVarintBytes();
      return Ok(ConnectionClose(code, ty, reason));
    }

    method ReadVarints(ft: Byte) returns (r: Result<Frame, FrameError>)
      requires Valid()
      requires ft == 0x04 || ft == 0x05 || 0x10 <= ft <= 0x17 || ft == 0x19
      modifies this
      ensures Valid()
      ensures match VarintBody(ft, old(rest))
              case Ok((f, t)) => r == Ok(f) && rest == t
              case Err(e) => r == Err(e)
    {
      hide TakeVarint;
      var a :- ReadVarint();
      match ft
      case 0x10 => return Ok(MaxData(a));
      case 0x12 => return Ok(MaxStreams(true, a));
      case 0x13 => return Ok(MaxStreams(false, a));
      case 0x14 => return Ok(DataBlocked(a));
      case 0x16 => return Ok(StreamsBlocked(true, a));
      case 0x17 => return Ok(StreamsBlocked(false, a));
      case 0x19 => return Ok(RetireConnectionId(a));
      case _ =>
        var b :- ReadVarint();
        match ft
        case 0x05 => return Ok(StopSending(a, b));
        case 0x11 => return Ok(MaxStreamData(a, b));
        case 0x15 => return Ok(StreamDataBlocked(a, b));
        case _ =>
          var c :- ReadVarint();
          return Ok(ResetStream(a, b, c));
    }

    /** The frame whose type value is `frameType`, the cursor standing after the type byte. */
    method ReadBody(frameType: nat) returns (r: Result<Frame, FrameError>)
      requires Valid()
      modifies this
      ensures Valid()
      ensures match Body(frameType, old(rest))
              case Ok((f, t)) => r == Ok(f) && rest == t
              case Err(e) => r == Err(e)
    {
      hide TakeVarint, TakeVarintBytes, AckBody, StreamBody, NewConnectionIdBody, CloseBody,
           VarintBody;
      var ft := frameType % 256;
      if ft == 0x00 {
        return Ok(Padding);
      } else if ft == 0x01 {
        return Ok(Ping);
      } else if ft == 0x02 || ft == 0x03 {
        r := ReadAck(frameType % 2 == 1);
      } else if ft == 0x04 || ft == 0x05 || 0x10 <= ft <= 0x17 || ft == 0x19 {
        r := ReadVarints(ft);
      } else if ft == 0x06 {
        var offset :- ReadVarint();
        var data :- ReadVarintBytes();
        return Ok(Crypto(offset, data));
      } else if ft == 0x07 {
        var token :- ReadVarintBytes();
        return Ok(NewToken(token));
      } else if 0x08 <= ft <= 0x0f {
        r := ReadStream(ft);
      } else if ft == 0x18 {
        r := ReadNewConnectionId();
      } else if ft == 0x1a || ft == 0x1b {
        var path :- ReadBytes(8);
        return Ok(if ft == 0x1a then PathChallenge(path) else PathResponse(path));
      } else if ft == 0x1c || ft == 0x1d {
        r := ReadClose(ft == 0x1d);
      } else if ft == 0x1e {
        return Ok(HandshakeDone);
      } else {
        return Err(UnknownType(frameType));
      }
    }
  }

  /** Parses the frame at the front of `buf`; returns it and the bytes it took. */
  method ParseFrame(buf: Data) returns (r: Result<(Frame, nat), FrameError>)
    ensures match TakeFrame(buf)
            case Ok((f, rest)) => r == Ok((f, |buf| - |rest|)) && rest == buf[|buf| - |rest|..]
            case Err(e) => r == Err(e)
  {
    hide Body, VarInt.Decode, VarInt.EncodedLen;
    match VarInt.Decode(buf)
    case Err(e) =>
      return Err(BadVarInt(e));
    case Ok((frameType, _)) =>
      VarInt.ShortestForm(buf);
      if frameType <= 63 && VarInt.EncodedLen(frameType) != 1 {
        return Err(NonMinimalType(frameType));
      }
      var cursor := new Cursor(buf[1..]);
      var frame :- cursor.ReadBody(frameType);
      return Ok((frame, |buf| - |cursor.rest|));
  }

  /** The receive loop: parses frames until the plaintext is used up. */
  method ReadFrames(plaintext: Data) returns (r: Result<seq<Frame>, FrameError>)
    ensures r == FramesOf(plaintext)
  {
    hide TakeFrame;
    var remaining := plaintext;
    var frames := [];
    assert forall more: seq<Frame> :: [] + more == more;
    while remaining != []
      invariant FramesOf(plaintext) == match FramesOf(remaining)
                                       case Ok(more) => Ok(frames + more)
                                       case Err(e) => Err(e)
      decreases |remaining|
    {
      ghost var before, done := remaining, frames;
      var parsed :- ParseFrame(remaining);
      var (frame, consumed) := parsed;
      remaining := remaining[consumed..];
      frames := frames + [frame];
      assert forall more: seq<Frame> :: done + ([frame] + more) == frames + more;
    }
    assert frames + [] == frames;
    return Ok(frames);
  }

  // ------------------------------------------------------------ writing

  /** Appends a varint. `rest` is what has yet to be written for the writer to reach `goal`: its
      outcome, and the buffer it leaves. */
  method PutVarint(buf: Buffer, v: nat, ghost rest: seq<Piece>, ghost goal: (Outcome<FrameError>, Data))
    returns (r: Outcome<FrameError>)
    requires Written(buf.bytes, [Int(v)] + rest) == goal
    modifies buf
    ensures r.Pass? ==> Written(buf.bytes, rest) == goal
    ensures r.Fail? ==> (r, buf.bytes) == goal
  {
    assert ([Int(v)] + rest)[1..] == rest;
    var put := VarInt.PutVarint(buf, v);
    assert old(buf.bytes) + [] == old(buf.bytes);
    return match put case Ok(_) => Pass case Err(e) => Fail(BadVarInt(e));
  }

  method PutRaw(buf: Buffer, d: Data, ghost rest: seq<Piece>, ghost goal: (Outcome<FrameError>, Data))
    requires Written(buf.bytes, [Raw(d)] + rest) == goal
    modifies buf
    ensures Written(buf.bytes, rest) == goal
  {
    assert ([Raw(d)] + rest)[1..] == rest;
    buf.PutSlice(d);
  }

  method PutVarintBytes(buf: Buffer, d: Data, ghost goal: (Outcome<FrameError>, Data))
    returns (r: Outcome<FrameError>)
    requires Written(buf.bytes, BytesPieces(d)) == goal
    modifies buf
    ensures (r, buf.bytes) == goal
  {
    assert BytesPieces(d) == [Int(|d|)] + [Raw(d)] && [Raw(d)] == [Raw(d)] + [];
    r := PutVarint(buf, |d|, [Raw(d)], goal);
    if r.Pass? {
      PutRaw(buf, d, [], goal);
    }
  }

  method WriteAck(f: Frame, buf: Buffer, ghost goal: (Outcome<FrameError>, Data))
    returns (r: Outcome<FrameError>)
    requires f.Ack? && f.ranges != [] && Written(buf.bytes, BodyPieces(f)) == goal
    modifies buf
    ensures (r, buf.bytes) == goal
  {
    hide Written, EcnPieces;
    ghost var p4 := RangePieces(f.ranges[1..]) + EcnPieces(f.ecn);
    ghost var p3 := [Int(f.ranges[0].range)] + p4;
    ghost var p2 := [Int(|f.ranges| - 1)] + p3;
    ghost var p1 := [Int(f.ackDelay)] + p2;
    assert BodyPieces(f) == [Int(f.largestAck)] + p1;
    r := PutVarint(buf, f.largestAck, p1, goal);
    if r.Fail? { return; }
    r := PutVarint(buf, f.ackDelay, p2, goal);
    if r.Fail? { return; }
    r := PutVarint(buf, |f.ranges| - 1, p3, goal);
    if r.Fail? { return; }
    r := PutVarint(buf, f.ranges[0].range, p4, goal);
    if r.Fail? { return; }
    for i := 1 to |f.ranges|
      invariant Written(buf.bytes, RangePieces(f.ranges[i..]) + EcnPieces(f.ecn)) == goal
    {
      ghost var rest := RangePieces(f.ranges[i + 1..]) + EcnPieces(f.ecn);
      assert f.ranges[i..][1..] == f.ranges[i + 1..];
      assert RangePieces(f.ranges[i..]) + EcnPieces(f.ecn)
          == [Int(f.ranges[i].gap)] + ([Int(f.ranges[i].range)] + rest);
      r := PutVarint(buf, f.ranges[i].gap, [Int(f.ranges[i].range)] + rest, goal);
      if r.Fail? { return; }
      r := PutVarint(buf, f.ranges[i].range, rest, goal);
      if r.Fail? { return; }
    }
    assert RangePieces(f.ranges[|f.ranges|..]) + EcnPieces(f.ecn) == EcnPieces(f.ecn);
    r := WriteEcn(f.ecn, buf, goal);
  }

  method WriteEcn(ecn: Option<EcnCounts>, buf: Buffer, ghost goal: (Outcome<FrameError>, Data))
    returns (r: Outcome<FrameError>)
    requires Written(buf.bytes, EcnPieces(ecn)) == goal
    modifies buf
    ensures (r, buf.bytes) == goal
  {
    if ecn.Some? {
      var e := ecn.value;
      ghost var p2 := [Int(e.ecnCe)] + [];
      ghost var p1 := [Int(e.ect1)] + p2;
      assert EcnPieces(ecn) == [Int(e.ect0)] + p1;
      r := PutVarint(buf, e.ect0, p1, goal);
      if r.Fail? { return; }
      r := PutVarint(buf, e.ect1, p2, goal);
      if r.Fail? { return; }
      r := PutVarint(buf, e.ecnCe, [], goal);
    } else {
      return Pass;
    }
  }

  method WriteStream(f: Frame, buf: Buffer, ghost goal: (Outcome<FrameError>, Data))
    returns (r: Outcome<FrameError>)
    requires f.Stream? && Written(buf.bytes, BodyPieces(f)) == goal
    modifies buf
    ensures (r, buf.bytes) == goal
  {
    ghost var p2 := if f.data != [] then BytesPieces(f.data) else [];
    ghost var p1 := (if f.offset > 0 then [Int(f.offset)] else []) + p2;
    r := PutVarint(buf, f.streamId, p1, goal);
    if r.Fail? { return; }
    if f.offset > 0 {
      r := PutVarint(buf, f.offset, p2, goal);
      if r.Fail? { return; }
    } else {
      assert p1 == p2;
    }
    if f.data != [] {
      r := PutVarintBytes(buf, f.data, goal);
    }
  }

  method WriteNewConnectionId(f: Frame, buf: Buffer, ghost goal: (Outcome<FrameError>, Data))
    returns (r: Outcome<FrameError>)
    requires f.NewConnectionId? && Written(buf.bytes, BodyPieces(f)) == goal
    modifies buf
    ensures (r, buf.bytes) == goal
  {
    hide Written;
    ghost var p4 := [Raw(f.resetToken)] + [];
    ghost var p3 := [Raw(f.id)] + p4;
    ghost var p2 := [Raw([|f.id| % 256])] + p3;
    ghost var p1 := [Int(f.retirePriorTo)] + p2;
    assert BodyPieces(f) == [Int(f.sequence)] + p1;
    r := PutVarint(buf, f.sequence, p1, goal);
    if r.Fail? { return; }
    r := PutVarint(buf, f.retirePriorTo, p2, goal);
    if r.Fail? { return; }
    PutRaw(buf, [|f.id| % 256], p3, goal);
    PutRaw(buf, f.id, p4, goal);
    PutRaw(buf, f.resetToken, [], goal);
    WrittenAll(buf.bytes);
  }

  lemma WrittenAll(done: Data)
    ensures Written(done, []) == (Pass, done)
  {
  }

  method WriteClose(f: Frame, buf: Buffer, ghost goal: (Outcome<FrameError>, Data))
    returns (r: Outcome<FrameError>)
    requires f.ConnectionClose? && Written(buf.bytes, BodyPieces(f)) == goal
    modifies buf
    ensures (r, buf.bytes) == goal
  {
    hide Written;
    ghost var p2 := BytesPieces(f.reason);
    ghost var p1 := (if f.frameType.Some? then [Int(f.frameType.value)] else []) + p2;
    r := PutVarint(buf, f.errorCode, p1, goal);
    if r.Fail? { return; }
    if f.frameType.Some? {
      r := PutVarint(buf, f.frameType.value, p2, goal);
      if r.Fail? { return; }
    } else {
      assert p1 == p2;
    }
    r := PutVarintBytes(buf, f.reason, goal);
  }

  /** The integers of a frame that carries nothing else. */
  method WriteVarints(vs: seq<nat>, buf: Buffer, ghost goal: (Outcome<FrameError>, Data))
    returns (r: Outcome<FrameError>)
    requires Written(buf.bytes, IntPieces(vs)) == goal
    modifies buf
    ensures (r, buf.bytes) == goal
  {
    for i := 0 to |vs|
      invariant Written(buf.bytes, IntPieces(vs[i..])) == goal
    {
      assert vs[i..][1..] == vs[i + 1..];
      r := PutVarint(buf, vs[i], IntPieces(vs[i + 1..]), goal);
      if r.Fail? { return; }
    }
    return Pass;
  }

  method WriteBody(f: Frame, buf: Buffer, ghost goal: (Outcome<FrameError>, Data))
    returns (r: Outcome<FrameError>)
    requires (f.Ack? ==> f.ranges != []) && Written(buf.bytes, BodyPieces(f)) == goal
    modifies buf
    ensures (r, buf.bytes) == goal
  {
    hide Written, BytesPieces;
    WrittenAll(buf.bytes);
    match f {
      case Ack(_, _, _, _) =>
        r := WriteAck(f, buf, goal);
      case Crypto(offset, data) =>
        r := PutVarint(buf, offset, BytesPieces(data), goal);
        if r.Pass? {
          r := PutVarintBytes(buf, data, goal);
        }
      case NewToken(token) =>
        r := PutVarintBytes(buf, token, goal);
      case Stream(_, _, _, _) =>
        r := WriteStream(f, buf, goal);
      case NewConnectionId(_, _, _, _) =>
        r := WriteNewConnectionId(f, buf, goal);
      case PathChallenge(path) =>
        assert [Raw(path)] == [Raw(path)] + [];
        PutRaw(buf, path, [], goal);
        WrittenAll(buf.bytes);
        return Pass;
      case PathResponse(path) =>
        assert [Raw(path)] == [Raw(path)] + [];
        PutRaw(buf, path, [], goal);
        WrittenAll(buf.bytes);
        return Pass;
      case ConnectionClose(_, _, _) =>
        r := WriteClose(f, buf, goal);
      case _ =>
        r := WriteVarints(Varints(f), buf, goal);
    }
  }

  /** Appends `f` to `buf`: all its bytes, or those before the first integer without a varint, which
      the error names. */
  method WriteFrame(f: Frame, buf: Buffer) returns (r: Result<nat, FrameError>)
    requires f.Ack? ==> f.ranges != []
    modifies buf
    ensures r.Ok? <==> Writable(f)
    ensures r.Ok? ==> buf.bytes == old(buf.bytes) + Wire(f) && r.value == |Wire(f)|
    ensures r.Err? ==> (Fail(r.error), buf.bytes) == Written(old(buf.bytes), Pieces(f))
  {
    hide BodyPieces, Writable, BodyWire, TypeOf, Written;
    var start := |buf.bytes|;
    ghost var goal := Written(buf.bytes, Pieces(f));
    FrameWritten(buf.bytes, f);
    PutRaw(buf, [TypeOf(f)], BodyPieces(f), goal);
    var put := WriteBody(f, buf, goal);
    if put.Fail? {
      return Err(put.error);
    }
    return Ok(|buf.bytes| - start);
  }

  /** Serialises a packet's frames one after the other, up to the first that cannot be written. */
  method WriteFrames(fs: seq<Frame>, buf: Buffer) returns (r: Outcome<FrameError>)
    requires forall f :: f in fs && f.Ack? ==> f.ranges != []
    modifies buf
    ensures r.Pass? <==> forall f :: f in fs ==> Writable(f)
    ensures r.Pass? ==> buf.bytes == old(buf.bytes) + ListWire(fs, [])
    ensures r.Fail? ==>
              exists i :: 0 <= i < |fs| && (forall j :: 0 <= j < i ==> Writable(fs[j])) && !Writable(fs[i])
                && (r, buf.bytes) == Written(old(buf.bytes) + ListWire(fs[..i], []), Pieces(fs[i]))
  {
    hide Writable, TypeOf, BodyWire, Written, BodyPieces;
    ghost var start := buf.bytes;
    assert start + [] == start && fs[..0] == [];
    for i := 0 to |fs|
      invariant forall j :: 0 <= j < i ==> Writable(fs[j])
      invariant buf.bytes == start + ListWire(fs[..i], [])
    {
      assert fs[i] in fs;
      ListSnoc(fs, i);
      var written := WriteFrame(fs[i], buf);
      if written.Err? {
        return Fail(written.error);
      }
      assert start + ListWire(fs[..i], []) + Wire(fs[i]) == start + (ListWire(fs[..i], []) + Wire(fs[i]));
    }
    assert fs[..|fs|] == fs;
    return Pass;
  }

  lemma ListSnoc(fs: seq<Frame>, i: nat)
    requires i < |fs|
    ensures ListWire(fs[..i + 1], []) == ListWire(fs[..i], []) + Wire(fs[i])
  {
    hide WireTo;
    assert fs[..i + 1] == fs[..i] + [fs[i]];
    ListThen(fs[..i], [fs[i]]);
    assert [fs[i]][1..] == [];
    FrameLaws.ListTail(fs[..i], Wire(fs[i]));
  }

  lemma {:induction false} ListThen(fs: seq<Frame>, gs: seq<Frame>)
    ensures ListWire(fs + gs, []) == ListWire(fs, ListWire(gs, []))
  {
    hide WireTo;
    if fs == [] {
      assert fs + gs == gs;
    } else {
      assert (fs + gs)[1..] == fs[1..] + gs;
      ListThen(fs[1..], gs);
    }
  }
}
