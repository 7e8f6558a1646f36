/** What every run of one connection keeps, whatever is sent to it. */
module Lifecycle {
  import opened Wrappers
  import opened Bytes
  import opened Protection
  import opened Tls
  import opened Connections
  import opened Runs
  import Frames

  function Rank(s: State): nat
  {
    match s
    case Connecting => 0
    case Handshaking => 0
    case Established => 1
    case Closed => 2
  }

  /** What one call, and so a whole run, never undoes. */
  ghost predicate Progress(c: Conn, d: Conn)
  {
    && d.side == c.side
    && Rank(c.state) <= Rank(d.state)
    && (c.state != d.state ==> d.state == Established || d.state == State.Closed)
    && (c.closeReason.Some? ==> d.closeReason.Some?)
    && (forall l: Level :: c.spaces.At(l).keys.Some? ==> d.spaces.At(l).keys.Some?)
    && (forall l: Level :: c.spaces.At(l).nextSendPn <= d.spaces.At(l).nextSendPn)
  }

  ghost predicate ClosedForAReason(c: Conn)
  {
    c.state == State.Closed ==> c.closeReason.Some?
  }

  lemma ProgressTrans(c: Conn, d: Conn, e: Conn)
    requires Progress(c, d) && Progress(d, e)
    ensures Progress(c, e)
  {
    hide Per.At;
  }

  /** What `egest` does to the state, packet by packet. */
  lemma DepartKeeps(c: Conn)
    requires c.state != State.Closed
    ensures var (d, out) := Depart(c);
            && Progress(c, d) && d.state != State.Closed
            && (out.Idle? ==> d == c)
            && (!out.Idle? ==> d == Taken(c, out.level) && Ready(c, out.level)
                               && out.frames == Waiting(c, out.level)
                               && out.pn == c.spaces.At(out.level).nextSendPn)
  {
    hide Sealing, Waiting;
  }

  lemma StepProgress(c: Conn, step: Step)
    ensures Progress(c, Next(c, step))
    ensures c.state == State.Closed && (step.DoIngest? || step.DoEgest?) ==> Next(c, step) == c
    ensures ClosedForAReason(c) ==> ClosedForAReason(Next(c, step))
  {
    hide Ingest, Depart, SampleThere, RecvData;
    match step
    case DoIngest(buf) =>
      if SampleThere(c, buf) {
        IngestKeeps(c, buf);
      }
    case DoEgest(_) =>
      if c.state != State.Closed {
        DepartKeeps(c);
      }
    case DoRecv(cap) =>
      RecvKeeps(c, cap);
    case DoSend(_) =>
  }

  lemma RecvKeeps(c: Conn, cap: nat)
    ensures RecvData(c, cap).0 == c.(receivedAppData := RecvData(c, cap).0.receivedAppData)
  {
  }

  /** In every run the state only moves forward, a closed connection stays closed and knows why,
      keys never leave a space, and packet numbers are not taken back. */
  lemma {:induction false} RunProgress(c: Conn, steps: seq<Step>)
    ensures Progress(c, Run(c, steps))
    ensures c.state == State.Closed ==> Run(c, steps).state == State.Closed
    ensures ClosedForAReason(c) ==> ClosedForAReason(Run(c, steps))
    decreases |steps|
  {
    hide Next;
    if steps != [] {
      StepProgress(c, steps[0]);
      RunProgress(Next(c, steps[0]), steps[1..]);
      ProgressTrans(c, Next(c, steps[0]), Run(c, steps));
    }
  }

  // ------------------------------------------------------------ packet numbers

  function NumbersAt(out: seq<Departure>, level: Level): seq<nat>
  {
    if out == [] then []
    else (if !out[0].Idle? && out[0].level == level then [out[0].pn] else [])
         + NumbersAt(out[1..], level)
  }

  function From(start: nat, count: nat): (s: seq<nat>)
    ensures |s| == count && forall i :: 0 <= i < count ==> s[i] == start + i
  {
    seq(count, i => start + i)
  }

  /** How one call uses a space's packet numbers: not at all, or the next one. */
  lemma StepNumbers(c: Conn, step: Step, level: Level)
    ensures var used := NumbersAt(Leaving(c, step), level);
            && Next(c, step).spaces.At(level).nextSendPn == c.spaces.At(level).nextSendPn + |used|
            && used == From(c.spaces.At(level).nextSendPn, |used|)
  {
    hide Ingest, Depart, SampleThere, RecvData;
    assert NumbersAt([], level) == [];
    match step
    case DoIngest(buf) =>
      if SampleThere(c, buf) {
        IngestKeeps(c, buf);
      }
    case DoEgest(_) =>
      if c.state != State.Closed {
        DepartKeeps(c);
        var out := Depart(c).1;
        assert [out][1..] == [];
      }
    case DoRecv(cap) => RecvKeeps(c, cap);
    case DoSend(_) =>
  }

  lemma NumbersConcat(a: seq<Departure>, b: seq<Departure>, level: Level)
    requires |a| <= 1
    ensures NumbersAt(a + b, level) == NumbersAt(a, level) + NumbersAt(b, level)
  {
    if |a| == 1 {
      assert (a + b)[1..] == b && a[1..] == [];
    } else {
      assert a + b == b;
    }
  }

  /** Over a whole run a space uses consecutive packet numbers, each once (section 12.3 of RFC
      9000), also for packets that could not be sealed or did not fit the caller's buffer. */
  lemma {:induction false} RunNumbers(c: Conn, steps: seq<Step>, level: Level)
    ensures var used := NumbersAt(Departures(c, steps), level);
            && used == From(c.spaces.At(level).nextSendPn, |used|)
            && Run(c, steps).spaces.At(level).nextSendPn == c.spaces.At(level).nextSendPn + |used|
    decreases |steps|
  {
    hide Next, Leaving;
    if steps != [] {
      var d := Next(c, steps[0]);
      var first, rest := Leaving(c, steps[0]), Departures(d, steps[1..]);
      assert |first| <= 1 by { LeavingOne(c, steps[0]); }
      StepNumbers(c, steps[0], level);
      RunNumbers(d, steps[1..], level);
      NumbersConcat(first, rest, level);
    }
  }

  lemma LeavingOne(c: Conn, step: Step)
    ensures |Leaving(c, step)| <= 1
  {
  }

  // ------------------------------------------------------------ HANDSHAKE_DONE

  function DoneCount(out: seq<Departure>): nat
  {
    if out == [] then 0
    else (if !out[0].Idle? && Frames.HandshakeDone in out[0].frames then 1 else 0)
         + DoneCount(out[1..])
  }

  /** Only a handshaking server's application packet carries HANDSHAKE_DONE. */
  lemma DoneOnlyWhenFinishing(c: Conn, level: Level)
    ensures Frames.HandshakeDone in Waiting(c, level) <==> Finishing(c, level)
  {
    var d := DonePart(c, level);
    if Finishing(c, level) {
      assert d[0] == Frames.HandshakeDone;
      assert Waiting(c, level)[|CryptoPart(c, level)| + |AckPart(c, level)|] == d[0];
    }
  }

  /** How many HANDSHAKE_DONE frames are still to come. */
  function DoneLeft(c: Conn): nat
  {
    if c.side == Server && c.state == Handshaking then 1 else 0
  }

  lemma StepDone(c: Conn, step: Step)
    ensures DoneCount(Leaving(c, step)) + DoneLeft(Next(c, step)) <= DoneLeft(c)
  {
    StepProgress(c, step);
    hide Next, Depart, Waiting;
    assert DoneCount([]) == 0;
    if step.DoEgest? && c.state != State.Closed {
      DepartKeeps(c);
      var out := Depart(c).1;
      assert [out][1..] == [];
      if !out.Idle? {
        DoneOnlyWhenFinishing(c, out.level);
        assert Next(c, step) == Depart(c).0 by { EgestState(c, step.cap); }
      }
    }
  }

  lemma EgestState(c: Conn, cap: nat)
    requires c.state != State.Closed
    ensures Next(c, DoEgest(cap)) == Depart(c).0
  {
    hide Depart;
  }

  lemma DoneConcat(a: seq<Departure>, b: seq<Departure>)
    requires |a| <= 1
    ensures DoneCount(a + b) == DoneCount(a) + DoneCount(b)
  {
    if |a| == 1 {
      assert (a + b)[1..] == b && a[1..] == [];
    } else {
      assert a + b == b;
    }
  }

  /** HANDSHAKE_DONE is framed at most once in a run, and never by a client. */
  lemma {:induction false} HandshakeDoneOnce(c: Conn, steps: seq<Step>)
    ensures DoneCount(Departures(c, steps)) <= DoneLeft(c) <= 1
    ensures c.side == Client ==> DoneCount(Departures(c, steps)) == 0
    decreases |steps|
  {
    hide Next, Leaving;
    if steps != [] {
      var d := Next(c, steps[0]);
      LeavingOne(c, steps[0]);
      StepDone(c, steps[0]);
      HandshakeDoneOnce(d, steps[1..]);
      DoneConcat(Leaving(c, steps[0]), Departures(d, steps[1..]));
    }
  }

  // ------------------------------------------------------------ draining

  /** The packets that calls of `egest` will make before they return nothing. */
  function Work(c: Conn): nat
  {
    (if Ready(c, INITIAL) then 1 else 0) + (if Ready(c, HANDSHAKE) then 1 else 0)
    + if !Ready(c, APPDATA) then 0
      else if Finishing(c, APPDATA) && c.pendingAppData != [] then 2
      else 1
  }

  /** What a drained connection still holds: nothing that it could send. */
  ghost predicate Drained(c: Conn)
  {
    && (forall l: Level :: c.spaces.At(l).keys.Some? ==>
          c.pendingCrypto.At(l) == [] && c.spaces.At(l).pendingAcks == [])
    && (c.state == Established && c.spaces.appdata.keys.Some? ==> c.pendingAppData == [])
    && !(c.side == Server && c.state == Handshaking && c.spaces.appdata.keys.Some?)
  }

  lemma NothingWaits(c: Conn, level: Level)
    ensures Waiting(c, level) == [] <==>
              c.pendingCrypto.At(level) == [] && c.spaces.At(level).pendingAcks == []
              && !Finishing(c, level) && !Streaming(c, level)
  {
  }

  lemma DrainedMeans(c: Conn)
    ensures Work(c) == 0 <==> Drained(c)
  {
    NothingWaits(c, INITIAL);
    NothingWaits(c, HANDSHAKE);
    NothingWaits(c, APPDATA);
    hide Waiting;
  }

  /** Taking the frames of one level leaves the other levels' frames waiting. */
  lemma OtherLevels(c: Conn, level: Level, other: Level)
    requires other != level && c.state != State.Closed
    ensures level != APPDATA ==> (Ready(Taken(c, level), other) <==> Ready(c, other))
    ensures other != APPDATA ==> (Ready(Taken(c, level), other) <==> Ready(c, other))
  {
    NothingWaits(c, other);
    NothingWaits(Taken(c, level), other);
    hide Waiting;
  }

  lemma SameLevel(c: Conn, level: Level)
    requires Ready(c, level)
    ensures Ready(Taken(c, level), level)
            <==> Finishing(c, level) && c.pendingAppData != []
    ensures !Finishing(Taken(c, level), level)
  {
    NothingWaits(Taken(c, level), level);
    hide Waiting;
  }

  /** Each call makes one packet of the work, and none only when there is none. */
  lemma OnePacketLess(c: Conn)
    requires c.state != State.Closed
    ensures var (d, out) := Depart(c);
            && d.state != State.Closed && Work(c) <= 4
            && (out.Idle? <==> Work(c) == 0) && (!out.Idle? ==> Work(d) == Work(c) - 1)
  {
    DepartKeeps(c);
    var (d, out) := Depart(c);
    hide Waiting, Sealing, Taken, Progress, Streaming;
    if !out.Idle? {
      var l := out.level;
      if l != INITIAL { OtherLevels(c, l, INITIAL); }
      if l != HANDSHAKE { OtherLevels(c, l, HANDSHAKE); }
      if l != APPDATA { OtherLevels(c, l, APPDATA); }
      SameLevel(c, l);
    }
  }

  /** All calls of `egest` until one returns nothing: the drain loop of `runtime.rs`. */
  function Drain(c: Conn): (r: (Conn, seq<Departure>))
    requires c.state != State.Closed
    decreases Work(c)
  {
    OnePacketLess(c);
    var (d, out) := Depart(c);
    if out.Idle? then (c, [])
    else
      var (e, rest) := Drain(d);
      (e, [out] + rest)
  }

  /** From any open state the drain loop makes exactly `Work` packets, at most four, and leaves
      nothing to send in any space that has keys. */
  lemma {:induction false} DrainTerminates(c: Conn)
    requires c.state != State.Closed
    ensures var (d, out) := Drain(c);
            && |out| == Work(c) <= 4 && Drained(d) && d.state != State.Closed
    decreases Work(c)
  {
    hide Work, Depart, Drained;
    OnePacketLess(c);
    DrainedMeans(c);
    var (d, out) := Depart(c);
    if !out.Idle? {
      DrainTerminates(d);
    }
  }
}
