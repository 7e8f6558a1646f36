/**
 What the frame writer puts into its buffer, piece by piece, and where it stops: at the first
 integer that has no varint, with everything before it already written.
 */
module FramePieces {
  import opened Wrappers
  import opened Bytes
  import opened Frames
  import VarInt

  datatype Piece = Int(v: nat) | Raw(data: Data)

  function RangePieces(ranges: seq<AckRange>): seq<Piece>
  {
    if ranges == [] then []
    else [Int(ranges[0].gap), Int(ranges[0].range)] + RangePieces(ranges[1..])
  }

  function EcnPieces(ecn: Option<EcnCounts>): seq<Piece>
  {
    match ecn
    case None => []
    case Some(e) => [Int(e.ect0), Int(e.ect1), Int(e.ecnCe)]
  }

  function IntPieces(vs: seq<nat>): seq<Piece>
  {
    if vs == [] then [] else [Int(vs[0])] + IntPieces(vs[1..])
  }

  function BytesPieces(d: Data): seq<Piece>
  {
    [Int(|d|), Raw(d)]
  }

  /** A frame behind its type byte, in the order of writing. */
  function BodyPieces(f: Frame): seq<Piece>
    requires f.Ack? ==> f.ranges != []
  {
    match f
    case Ack(largest, delay, ranges, ecn) =>
      [Int(largest), Int(delay), Int(|ranges| - 1), Int(ranges[0].range)]
      + (RangePieces(ranges[1..]) + EcnPieces(ecn))
    case Crypto(offset, data) => [Int(offset)] + BytesPieces(data)
    case NewToken(token) => BytesPieces(token)
    case Stream(id, offset, data, _) =>
      [Int(id)] + ((if offset > 0 then [Int(offset)] else [])
                   + (if data != [] then BytesPieces(data) else []))
    case NewConnectionId(sequence, retire, id, token) =>
      [Int(sequence), Int(retire), Raw([|id| % 256]), Raw(id), Raw(token)]
    case PathChallenge(path) => [Raw(path)]
    case PathResponse(path) => [Raw(path)]
    case ConnectionClose(code, ty, reason) =>
      [Int(code)] + ((if ty.Some? then [Int(ty.value)] else []) + BytesPieces(reason))
    case _ => IntPieces(Varints(f))
  }

  function Pieces(f: Frame): seq<Piece>
    requires f.Ack? ==> f.ranges != []
  {
    [Raw([TypeOf(f)])] + BodyPieces(f)
  }

  /** The outcome of writing pieces, and the buffer afterwards. */
  function Written(done: Data, ps: seq<Piece>): (Outcome<FrameError>, Data)
    decreases |ps|
  {
    if ps == [] then (Pass, done)
    else
      match ps[0]
      case Raw(d) => Written(done + d, ps[1..])
      case Int(v) =>
        if Fits(v) then Written(done + VarInt.Enc(v), ps[1..])
        else (Fail(BadVarInt(VarInt.ValueTooLarge(v))), done)
  }

  function PieceWire(p: Piece): Data
  {
    match p
    case Raw(d) => d
    case Int(v) => VarInt.Enc(v)
  }

  /** The bytes of pieces whose integers all fit. */
  function Join(ps: seq<Piece>): Data
  {
    if ps == [] then [] else PieceWire(ps[0]) + Join(ps[1..])
  }

  predicate Fit(p: Piece)
  {
    p.Int? ==> Fits(p.v)
  }

  predicate AllFit(ps: seq<Piece>)
  {
    forall i :: 0 <= i < |ps| ==> Fit(ps[i])
  }

  // ------------------------------------------------------------ what writing means

  /** Writing stops at piece `i`: the first integer that does not fit. */
  predicate StopsAt(done: Data, ps: seq<Piece>, i: nat)
  {
    && i < |ps| && AllFit(ps[..i]) && !Fit(ps[i])
    && Written(done, ps) == (Fail(BadVarInt(VarInt.ValueTooLarge(ps[i].v))), done + Join(ps[..i]))
  }

  lemma StopsLater(done: Data, ps: seq<Piece>, i: nat)
    requires ps != [] && Fit(ps[0]) && StopsAt(done + PieceWire(ps[0]), ps[1..], i)
    ensures StopsAt(done, ps, i + 1)
  {
    hide VarInt.Enc, Fits, AllFit;
    var front := ps[..i + 1];
    assert front[1..] == ps[1..][..i] && front[0] == ps[0];
    FitCons(front);
    assert done + PieceWire(ps[0]) + Join(ps[1..][..i]) == done + (PieceWire(ps[0]) + Join(ps[1..][..i]));
  }

  lemma StopsNow(done: Data, ps: seq<Piece>)
    requires ps != [] && !Fit(ps[0])
    ensures StopsAt(done, ps, 0)
  {
    assert ps[..0] == [] && done + [] == done;
  }

  /** Writing succeeds exactly when all integers fit, with all bytes in place; otherwise the error
      names the first that does not, and the bytes before it are in the buffer. */
  lemma {:induction false} WrittenMeans(done: Data, ps: seq<Piece>)
    ensures AllFit(ps) ==> Written(done, ps) == (Pass, done + Join(ps))
    ensures !AllFit(ps) ==> exists i :: StopsAt(done, ps, i)
    decreases |ps|
  {
    hide VarInt.Enc, Fits, AllFit, StopsAt;
    if ps == [] {
      Nothing();
      assert done + [] == done;
    } else if !Fit(ps[0]) {
      FitCons(ps);
      StopsNow(done, ps);
    } else {
      FitCons(ps);
      WrittenMeans(done + PieceWire(ps[0]), ps[1..]);
      assert done + PieceWire(ps[0]) + Join(ps[1..]) == done + (PieceWire(ps[0]) + Join(ps[1..]));
      if !AllFit(ps[1..]) {
        var i :| StopsAt(done + PieceWire(ps[0]), ps[1..], i);
        StopsLater(done, ps, i);
      }
    }
  }

  // ------------------------------------------------------------ pieces and wire format

  lemma FitCons(ps: seq<Piece>)
    requires ps != []
    ensures AllFit(ps) <==> Fit(ps[0]) && AllFit(ps[1..])
  {
    hide Fit;
    assert forall i :: 0 < i < |ps| ==> ps[i] == ps[1..][i - 1];
    if Fit(ps[0]) && AllFit(ps[1..]) {
      forall i | 0 <= i < |ps| ensures Fit(ps[i]) {
        assert i > 0 ==> Fit(ps[1..][i - 1]);
      }
    }
    if AllFit(ps) {
      forall i | 0 <= i < |ps[1..]| ensures Fit(ps[1..][i]) {
        assert Fit(ps[i + 1]);
      }
    }
  }

  lemma OneInt(v: nat, ps: seq<Piece>)
    ensures Join([Int(v)] + ps) == VarInt.Enc(v) + Join(ps)
    ensures AllFit([Int(v)] + ps) <==> Fits(v) && AllFit(ps)
  {
    hide VarInt.Enc, Fits;
    assert ([Int(v)] + ps)[1..] == ps;
    FitCons([Int(v)] + ps);
  }

  lemma OneRaw(d: Data, ps: seq<Piece>)
    ensures Join([Raw(d)] + ps) == d + Join(ps)
    ensures AllFit([Raw(d)] + ps) <==> AllFit(ps)
  {
    assert ([Raw(d)] + ps)[1..] == ps;
    FitCons([Raw(d)] + ps);
  }

  lemma Nothing()
    ensures Join([]) == [] && AllFit([])
  {
  }

  lemma {:induction false} RangesJoin(ranges: seq<AckRange>, qs: seq<Piece>)
    ensures Join(RangePieces(ranges) + qs) == RangesWire(ranges, Join(qs))
    ensures AllFit(RangePieces(ranges) + qs)
            <==> AllFit(qs) && forall r :: r in ranges ==> Fits(r.gap) && Fits(r.range)
  {
    hide VarInt.Enc, Fits, Join, AllFit;
    if ranges == [] {
      assert RangePieces(ranges) + qs == qs;
    } else {
      var rest := RangePieces(ranges[1..]) + qs;
      assert RangePieces(ranges) + qs == [Int(ranges[0].gap)] + ([Int(ranges[0].range)] + rest);
      OneInt(ranges[0].gap, [Int(ranges[0].range)] + rest);
      OneInt(ranges[0].range, rest);
      RangesJoin(ranges[1..], qs);
      assert forall r :: r in ranges <==> r == ranges[0] || r in ranges[1..];
    }
  }

  lemma EcnJoin(ecn: Option<EcnCounts>)
    ensures Join(EcnPieces(ecn)) == EcnWire(ecn, [])
    ensures AllFit(EcnPieces(ecn))
            <==> (ecn.Some? ==> Fits(ecn.value.ect0) && Fits(ecn.value.ect1) && Fits(ecn.value.ecnCe))
  {
    hide VarInt.Enc, Fits, Join, AllFit;
    Nothing();
    if ecn.Some? {
      var e := ecn.value;
      assert EcnPieces(ecn) == [Int(e.ect0)] + ([Int(e.ect1)] + ([Int(e.ecnCe)] + []));
      OneInt(e.ect0, [Int(e.ect1)] + ([Int(e.ecnCe)] + []));
      OneInt(e.ect1, [Int(e.ecnCe)] + []);
      OneInt(e.ecnCe, []);
    }
  }

  lemma {:induction false} IntsJoin(vs: seq<nat>)
    ensures Join(IntPieces(vs)) == VarintsWire(vs, [])
    ensures AllFit(IntPieces(vs)) <==> forall v :: v in vs ==> Fits(v)
  {
    hide VarInt.Enc, Fits, Join, AllFit;
    Nothing();
    if vs != [] {
      OneInt(vs[0], IntPieces(vs[1..]));
      IntsJoin(vs[1..]);
      assert forall v :: v in vs <==> v == vs[0] || v in vs[1..];
    }
  }

  lemma BytesJoin(d: Data)
    ensures Join(BytesPieces(d)) == BytesWire(d, []) && (AllFit(BytesPieces(d)) <==> Fits(|d|))
  {
    hide VarInt.Enc, Fits, Join, AllFit;
    Nothing();
    assert BytesPieces(d) == [Int(|d|)] + ([Raw(d)] + []);
    OneInt(|d|, [Raw(d)] + []);
    OneRaw(d, []);
  }

  lemma AckJoin(f: Frame)
    requires f.Ack? && f.ranges != []
    ensures Join(BodyPieces(f)) == AckWire(f, []) && (AllFit(BodyPieces(f)) <==> Writable(f))
  {
    hide VarInt.Enc, Fits, Join, AllFit, RangePieces, EcnPieces, RangesWire, EcnWire;
    var rest := RangePieces(f.ranges[1..]) + EcnPieces(f.ecn);
    var p3 := [Int(f.ranges[0].range)] + rest;
    var p2 := [Int(|f.ranges| - 1)] + p3;
    var p1 := [Int(f.ackDelay)] + p2;
    assert BodyPieces(f) == [Int(f.largestAck)] + p1;
    OneInt(f.largestAck, p1);
    OneInt(f.ackDelay, p2);
    OneInt(|f.ranges| - 1, p3);
    OneInt(f.ranges[0].range, rest);
    RangesJoin(f.ranges[1..], EcnPieces(f.ecn));
    EcnJoin(f.ecn);
    TailFits(f.ranges);
  }

  lemma TailFits(ranges: seq<AckRange>)
    requires ranges != []
    ensures (forall r :: r in ranges[1..] ==> Fits(r.gap) && Fits(r.range))
            <==> forall i :: 1 <= i < |ranges| ==> Fits(ranges[i].gap) && Fits(ranges[i].range)
  {
    hide Fits;
    assert forall i :: 1 <= i < |ranges| ==> ranges[i] == ranges[1..][i - 1];
    if forall i :: 1 <= i < |ranges| ==> Fits(ranges[i].gap) && Fits(ranges[i].range) {
      forall r | r in ranges[1..] ensures Fits(r.gap) && Fits(r.range) {
        var j :| 0 <= j < |ranges[1..]| && ranges[1..][j] == r;
        assert ranges[j + 1] == r;
      }
    }
  }

  lemma StreamJoin(f: Frame)
    requires f.Stream?
    ensures Join(BodyPieces(f)) == StreamWire(f, []) && (AllFit(BodyPieces(f)) <==> Writable(f))
  {
    hide VarInt.Enc, Join, AllFit, BytesWire, BytesPieces;
    Nothing();
    var data := if f.data != [] then BytesPieces(f.data) else [];
    BytesJoin(f.data);
    if f.offset > 0 {
      OneInt(f.streamId, [Int(f.offset)] + data);
      OneInt(f.offset, data);
    } else {
      assert [] + data == data;
      OneInt(f.streamId, data);
    }
  }

  lemma CloseJoin(f: Frame)
    requires f.ConnectionClose?
    ensures Join(BodyPieces(f)) == CloseWire(f, []) && (AllFit(BodyPieces(f)) <==> Writable(f))
  {
    hide VarInt.Enc, Join, AllFit, BytesWire, BytesPieces;
    var reason := BytesPieces(f.reason);
    BytesJoin(f.reason);
    if f.frameType.Some? {
      OneInt(f.errorCode, [Int(f.frameType.value)] + reason);
      OneInt(f.frameType.value, reason);
    } else {
      assert [] + reason == reason;
      OneInt(f.errorCode, reason);
    }
  }

  lemma NewConnectionIdJoin(f: Frame)
    requires f.NewConnectionId?
    ensures Join(BodyPieces(f)) == NewConnectionIdWire(f, []) && (AllFit(BodyPieces(f)) <==> Writable(f))
  {
    hide VarInt.Enc, Fits, Join, AllFit;
    Nothing();
    var p4 := [Raw(f.resetToken)] + [];
    var p3 := [Raw(f.id)] + p4;
    var p2 := [Raw([|f.id| % 256])] + p3;
    var p1 := [Int(f.retirePriorTo)] + p2;
    assert BodyPieces(f) == [Int(f.sequence)] + p1;
    OneInt(f.sequence, p1);
    OneInt(f.retirePriorTo, p2);
    OneRaw([|f.id| % 256], p3);
    OneRaw(f.id, p4);
    OneRaw(f.resetToken, []);
  }

  lemma BodyJoin(f: Frame)
    requires f.Ack? ==> f.ranges != []
    ensures Join(BodyPieces(f)) == BodyWire(f, []) && (AllFit(BodyPieces(f)) <==> Writable(f))
  {
    hide VarInt.Enc, Fits, Join, AllFit, AckWire, StreamWire, CloseWire, NewConnectionIdWire, BytesWire,
         VarintsWire, BytesPieces, IntPieces, RangePieces, EcnPieces;
    match f
    case Ack(_, _, _, _) => AckJoin(f);
    case Stream(_, _, _, _) => StreamJoin(f);
    case ConnectionClose(_, _, _) => CloseJoin(f);
    case NewConnectionId(_, _, _, _) => NewConnectionIdJoin(f);
    case Crypto(_, _) => CryptoJoin(f);
    case NewToken(token) => BytesJoin(token);
    case PathChallenge(path) => RawOnly(path);
    case PathResponse(path) => RawOnly(path);
    case _ => IntsJoin(Varints(f));
  }

  lemma CryptoJoin(f: Frame)
    requires f.Crypto?
    ensures Join(BodyPieces(f)) == VarInt.Enc(f.offset) + BytesWire(f.data, [])
    ensures AllFit(BodyPieces(f)) <==> Fits(f.offset) && Fits(|f.data|)
  {
    hide VarInt.Enc, Join, AllFit, BytesWire, BytesPieces;
    BytesJoin(f.data);
    OneInt(f.offset, BytesPieces(f.data));
  }

  lemma RawOnly(d: Data)
    ensures Join([Raw(d)]) == d + [] && AllFit([Raw(d)])
  {
    assert [Raw(d)][1..] == [];
  }

  /** Writing a frame: all its bytes, if every integer fits, and else the bytes before the first
      that does not, which the error names. */
  lemma FrameWritten(done: Data, f: Frame)
    requires f.Ack? ==> f.ranges != []
    ensures Writable(f) ==> Written(done, Pieces(f)) == (Pass, done + Wire(f))
    ensures !Writable(f) ==> exists i :: StopsAt(done, Pieces(f), i)
  {
    hide BodyPieces, Writable, BodyWire, TypeOf, Join, AllFit, Written, Fit, StopsAt;
    OneRaw([TypeOf(f)], BodyPieces(f));
    BodyJoin(f);
    WrittenMeans(done, Pieces(f));
  }
}
