/** What the ACK frames of `egest` acknowledge. */
module Acknowledgements {
  import opened Wrappers
  import opened Bytes
  import opened Protection
  import opened Tls
  import opened Connections
  import opened Runs
  import Frames
  import Lifecycle
  import Packets

  // ------------------------------------------------------------ one frame

  function Interval(low: int, high: int): (s: set<int>)
    ensures forall x :: x in s <==> low <= x <= high
    ensures low <= high + 1 ==> |s| == high - low + 1
    decreases high - low
  {
    if low > high then {} else {low} + Interval(low + 1, high)
  }

  /** The packet numbers that an ACK frame names (section 19.3.1 of RFC 9000): the first range
      ends at `largest`; each further one ends two and its gap below the start of the last. */
  function Acked(largest: int, ranges: seq<Frames.AckRange>): set<int>
    decreases |ranges|
  {
    if ranges == [] then {}
    else
      var low := largest - ranges[0].range;
      Interval(low, largest)
      + (if |ranges| == 1 then {} else Acked(low - ranges[1].gap - 2, ranges[1..]))
  }

  function Members(s: seq<nat>): (m: set<int>)
    ensures forall x :: x in m <==> x >= 0 && x in s
    ensures |m| <= |s|
  {
    if s == [] then {}
    else
      assert s == [s[0]] + s[1..];
      {s[0]} + Members(s[1..])
  }

  predicate NoDuplicates(s: seq<nat>)
  {
    forall i, j :: 0 <= i < j < |s| ==> s[i] != s[j]
  }

  /** No number between two members is missing. */
  predicate NoGaps(s: seq<nat>)
    requires s != []
  {
    forall low, x: nat :: low in s && low <= x <= Max(s) ==> x in s
  }

  lemma {:induction false} MembersSize(s: seq<nat>)
    ensures |Members(s)| == |s| <==> NoDuplicates(s)
  {
    if s != [] {
      MembersSize(s[1..]);
      var rest := Members(s[1..]);
      if s[0] in s[1..] {
        var j :| 0 <= j < |s[1..]| && s[1..][j] == s[0];
        assert {s[0]} + rest == rest;
        assert s[j + 1] == s[0];
      } else {
        assert |{s[0]} + rest| == 1 + |rest|;
        NoDuplicatesStep(s);
      }
    }
  }

  lemma NoDuplicatesStep(s: seq<nat>)
    requires s != [] && s[0] !in s[1..]
    ensures NoDuplicates(s) <==> NoDuplicates(s[1..])
  {
    if NoDuplicates(s[1..]) {
      forall i, j | 0 <= i < j < |s| ensures s[i] != s[j] {
        assert s[j] == s[1..][j - 1];
        assert i > 0 ==> s[i] == s[1..][i - 1];
      }
    }
    if NoDuplicates(s) {
      forall i, j | 0 <= i < j < |s[1..]| ensures s[1..][i] != s[1..][j] {
        assert s[i + 1] != s[j + 1];
      }
    }
  }

  function Least(s: seq<nat>): (m: nat)
    requires s != []
    ensures m in s && forall x :: x in s ==> m <= x
  {
    if |s| == 1 then s[0]
    else
      var m := Least(s[1..]);
      assert s == [s[0]] + s[1..];
      if s[0] < m then s[0] else m
  }

  /** A list as long as the distance from its maximum. */
  lemma ExactMeans(acks: seq<nat>)
    requires acks != [] && Members(acks) == Interval(Max(acks) - |acks| + 1, Max(acks))
    ensures NoDuplicates(acks) && NoGaps(acks)
  {
    hide NoDuplicates, Max, Members, Interval;
    MembersSize(acks);
    forall l, x: nat | l in acks && l <= x <= Max(acks) ensures x in acks {
      assert l in Members(acks);
      assert x in Interval(Max(acks) - |acks| + 1, Max(acks));
    }
  }

  lemma ExactWhen(acks: seq<nat>)
    requires acks != [] && NoDuplicates(acks) && NoGaps(acks)
    ensures Members(acks) == Interval(Max(acks) - |acks| + 1, Max(acks))
  {
    MembersSize(acks);
    hide NoDuplicates, Max, Members, Least, Interval;
    assert Members(acks) == Interval(Least(acks), Max(acks));
  }

  /** The ACK names exactly the pending numbers if and only if none is pending twice and none
      between them is missing. */
  lemma AckExact(acks: seq<nat>)
    requires acks != []
    ensures Acked(AckFor(acks).largestAck, AckFor(acks).ranges) == Members(acks)
            <==> NoDuplicates(acks) && NoGaps(acks)
  {
    hide NoDuplicates, NoGaps, Max, Members, Interval;
    var named := Acked(AckFor(acks).largestAck, AckFor(acks).ranges);
    assert named == Interval(Max(acks) - |acks| + 1, Max(acks));
    if named == Members(acks) {
      ExactMeans(acks);
    }
    if NoDuplicates(acks) && NoGaps(acks) {
      ExactWhen(acks);
    }
  }

  // ------------------------------------------------------------ whole runs

  /** The numbers of the packets of a level that one call receives. */
  function Arrivals(c: Conn, step: Step, level: Level): seq<nat>
  {
    if step.DoIngest? && c.state != State.Closed && step.buf != [] && SampleThere(c, step.buf)
       && Receive(c, step.buf).Ok? && Receive(c, step.buf).value.level == level
    then [Receive(c, step.buf).value.pn]
    else []
  }

  function AllArrivals(c: Conn, steps: seq<Step>, level: Level): seq<nat>
    decreases |steps|
  {
    if steps == [] then []
    else Arrivals(c, steps[0], level) + AllArrivals(Next(c, steps[0]), steps[1..], level)
  }

  /** The numbers a one-range ACK names, in ascending order. */
  function Named(f: Frames.Frame): (s: seq<nat>)
  {
    if f.Ack? && |f.ranges| == 1 && f.ranges[0].range <= f.largestAck
    then Lifecycle.From(f.largestAck - f.ranges[0].range, f.ranges[0].range + 1)
    else []
  }

  /** The numbers that the ACK frames of a packet name. */
  function NamedBy(fs: seq<Frames.Frame>): seq<nat>
  {
    if fs == [] then [] else Named(fs[0]) + NamedBy(fs[1..])
  }

  function AllNamed(out: seq<Departure>, level: Level): seq<nat>
  {
    if out == [] then []
    else (if !out[0].Idle? && out[0].level == level then NamedBy(out[0].frames) else [])
         + AllNamed(out[1..], level)
  }

  /** The numbers that the ACK frames of a packet acknowledge, as their receiver reads them. */
  function AckedBy(fs: seq<Frames.Frame>): set<int>
  {
    if fs == [] then {}
    else (if fs[0].Ack? then Acked(fs[0].largestAck, fs[0].ranges) else {}) + AckedBy(fs[1..])
  }

  function AllAcked(out: seq<Departure>, level: Level): set<int>
  {
    if out == [] then {}
    else (if !out[0].Idle? && out[0].level == level then AckedBy(out[0].frames) else {})
         + AllAcked(out[1..], level)
  }

  lemma NamedMeans(f: Frames.Frame)
    requires f.Ack? && |f.ranges| == 1 && f.ranges[0].range <= f.largestAck
    ensures Members(Named(f)) == Acked(f.largestAck, f.ranges)
  {
    hide Members, Interval;
    var low := f.largestAck - f.ranges[0].range;
    forall x: nat ensures x in Named(f) <==> x in Interval(low, f.largestAck) {
      if low <= x <= f.largestAck {
        assert Named(f)[x - low] == x;
      }
    }
  }

  /** The pending numbers are the last ones below `next`, in order. */
  predicate InLine(c: Conn, level: Level, next: nat)
  {
    var pending := c.spaces.At(level).pendingAcks;
    |pending| <= next && pending == Lifecycle.From(next - |pending|, |pending|)
  }

  lemma {:induction false} NamesNothing(fs: seq<Frames.Frame>)
    requires forall f :: f in fs ==> !f.Ack?
    ensures NamedBy(fs) == []
  {
    if fs != [] {
      assert fs[0] in fs;
      NamesNothing(fs[1..]);
    }
  }

  lemma {:induction false} NamedConcat(fs: seq<Frames.Frame>, gs: seq<Frames.Frame>)
    ensures NamedBy(fs + gs) == NamedBy(fs) + NamedBy(gs)
  {
    hide Named;
    if fs == [] {
      assert fs + gs == gs;
    } else {
      assert (fs + gs)[1..] == fs[1..] + gs;
      NamedConcat(fs[1..], gs);
    }
  }

  lemma RunIsNamed(start: nat, count: nat)
    requires count > 0
    ensures Named(AckFor(Lifecycle.From(start, count))) == Lifecycle.From(start, count)
  {
    hide Max;
    var s := Lifecycle.From(start, count);
    assert s[count - 1] in s;
    var i :| 0 <= i < count && s[i] == Max(s);
    assert Max(s) == start + count - 1;
    assert Named(AckFor(s)) == Lifecycle.From(start + count - 1 - (count - 1), count - 1 + 1);
  }

  lemma MembersConcat(s: seq<nat>, t: seq<nat>)
    ensures Members(s + t) == Members(s) + Members(t)
  {
    hide Members;
  }

  lemma {:induction false} AckedNothing(fs: seq<Frames.Frame>)
    requires forall f :: f in fs ==> !f.Ack?
    ensures AckedBy(fs) == {}
  {
    if fs != [] {
      assert fs[0] in fs;
      AckedNothing(fs[1..]);
    }
  }

  lemma {:induction false} AckedConcat(fs: seq<Frames.Frame>, gs: seq<Frames.Frame>)
    ensures AckedBy(fs + gs) == AckedBy(fs) + AckedBy(gs)
  {
    hide Acked;
    if fs == [] {
      assert fs + gs == gs;
    } else {
      assert (fs + gs)[1..] == fs[1..] + gs;
      AckedConcat(fs[1..], gs);
    }
  }

  /** A packet acknowledges exactly the pending numbers of a space that is in line. */
  lemma WaitingAcks(c: Conn, level: Level, next: nat)
    requires InLine(c, level, next)
    ensures AckedBy(Waiting(c, level)) == Members(c.spaces.At(level).pendingAcks)
  {
    hide Max, AckFor, Named, Members, Acked;
    var before, after := CryptoPart(c, level), DonePart(c, level) + StreamPart(c, level);
    var acks := c.spaces.At(level).pendingAcks;
    AckedNothing(before);
    AckedNothing(after);
    AckedConcat(before, AckPart(c, level));
    AckedConcat(before + AckPart(c, level), after);
    assert Waiting(c, level) == before + AckPart(c, level) + after;
    assert Members([]) == {};
    if acks != [] {
      RunIsNamed(next - |acks|, |acks|);
      AckShape(acks);
      NamedMeans(AckFor(acks));
      assert AckPart(c, level)[1..] == [];
    }
  }

  /** One range, which does not reach below zero. */
  lemma AckShape(acks: seq<nat>)
    requires acks != [] && Named(AckFor(acks)) == acks
    ensures var f := AckFor(acks); f.Ack? && |f.ranges| == 1 && f.ranges[0].range <= f.largestAck
  {
    hide Max;
  }

  /** A packet's ACK names the pending numbers. */
  lemma WaitingNames(c: Conn, level: Level, next: nat)
    requires InLine(c, level, next)
    ensures NamedBy(Waiting(c, level)) == c.spaces.At(level).pendingAcks
  {
    hide Max, AckFor, Named;
    var before, after := CryptoPart(c, level), DonePart(c, level) + StreamPart(c, level);
    var acks := c.spaces.At(level).pendingAcks;
    NamesNothing(before);
    NamesNothing(after);
    NamedConcat(before, AckPart(c, level));
    NamedConcat(before + AckPart(c, level), after);
    assert Waiting(c, level) == before + AckPart(c, level) + after;
    if acks != [] {
      RunIsNamed(next - |acks|, |acks|);
      assert AckPart(c, level)[1..] == [];
    }
  }

  lemma StepAcks(c: Conn, step: Step, level: Level, next: nat)
    requires InLine(c, level, next)
    requires var got := Arrivals(c, step, level); got == Lifecycle.From(next, |got|)
    ensures var got := Arrivals(c, step, level);
            && InLine(Next(c, step), level, next + |got|)
            && AllNamed(Leaving(c, step), level) + Next(c, step).spaces.At(level).pendingAcks
               == c.spaces.At(level).pendingAcks + got
            && AllAcked(Leaving(c, step), level) == Members(AllNamed(Leaving(c, step), level))
  {
    hide Ingest, Depart, SampleThere, RecvData, Receive, Waiting, NamedBy, InLine, AllNamed, AllAcked,
         Leaving, Members;
    var acks := c.spaces.At(level).pendingAcks;
    assert [] + acks == acks && acks + [] == acks;
    if !step.DoEgest? || c.state == State.Closed {
      LeavingNothing(c, step, level);
    }
    match step
    case DoIngest(buf) => IngestAcks(c, buf, level, next);
    case DoEgest(cap) =>
      if c.state == State.Closed {
        InLineSame(c, Next(c, step), level, next);
      } else {
        EgestAcks(c, cap, level, next);
        Lifecycle.EgestState(c, cap);
      }
    case DoRecv(cap) =>
      Lifecycle.RecvKeeps(c, cap);
      InLineSame(c, Next(c, step), level, next);
    case DoSend(_) => InLineSame(c, Next(c, step), level, next);
  }

  /** Only `egest` on an open connection makes packets. */
  lemma LeavingNothing(c: Conn, step: Step, level: Level)
    requires !step.DoEgest? || c.state == State.Closed
    ensures AllNamed(Leaving(c, step), level) == [] && AllAcked(Leaving(c, step), level) == {}
    ensures Members([]) == {}
  {
    hide Depart;
  }

  lemma IngestAcks(c: Conn, buf: Data, level: Level, next: nat)
    requires InLine(c, level, next)
    requires var got := Arrivals(c, DoIngest(buf), level); got == Lifecycle.From(next, |got|)
    ensures var got := Arrivals(c, DoIngest(buf), level);
            var d := Next(c, DoIngest(buf));
            InLine(d, level, next + |got|)
            && d.spaces.At(level).pendingAcks == c.spaces.At(level).pendingAcks + got
  {
    hide ProcessFrames, SampleThere, Receive;
    var acks := c.spaces.At(level).pendingAcks;
    assert acks + [] == acks;
    if c.state != State.Closed && buf != [] && SampleThere(c, buf) && Receive(c, buf).Ok? {
      var a := Receive(c, buf).value;
      var c1 := c.(spaces := c.spaces.With(a.level, Recorded(c.spaces.At(a.level), a.pn)));
      ProcessFramesKeeps(c1, a.level, a.frames);
      var d := ProcessFrames(c1, a.level, a.frames).0;
      assert d.spaces.At(level).pendingAcks == c1.spaces.At(level).pendingAcks;
    }
  }

  lemma DepartAcks(c: Conn, level: Level)
    requires c.state != State.Closed
    ensures var (d, out) := Depart(c);
            if !out.Idle? && out.level == level
            then d.spaces.At(level).pendingAcks == [] && out.frames == Waiting(c, level)
            else d.spaces.At(level).pendingAcks == c.spaces.At(level).pendingAcks
  {
    Lifecycle.DepartKeeps(c);
    hide Depart, Waiting, Ready, Lifecycle.Progress, Streaming, Finishing;
  }

  /** The numbers named by what one call of `egest` makes. */
  lemma LeavingNames(c: Conn, cap: nat, level: Level)
    requires c.state != State.Closed
    ensures var out := Depart(c).1;
            AllNamed(Leaving(c, DoEgest(cap)), level)
            == if !out.Idle? && out.level == level then NamedBy(out.frames) else []
    ensures var out := Depart(c).1;
            AllAcked(Leaving(c, DoEgest(cap)), level)
            == if !out.Idle? && out.level == level then AckedBy(out.frames) else {}
  {
    hide Depart, NamedBy, AckedBy;
    var out := Depart(c).1;
    assert [out][1..] == [];
  }

  /** An open connection's call of `egest`: the ACK names what was pending at its level. */
  lemma EgestAcks(c: Conn, cap: nat, level: Level, next: nat)
    requires InLine(c, level, next) && c.state != State.Closed
    ensures var d := Depart(c).0;
            InLine(d, level, next)
            && AllNamed(Leaving(c, DoEgest(cap)), level) + d.spaces.At(level).pendingAcks
               == c.spaces.At(level).pendingAcks
            && AllAcked(Leaving(c, DoEgest(cap)), level)
               == Members(AllNamed(Leaving(c, DoEgest(cap)), level))
  {
    assert Members([]) == {};
    hide Depart, Waiting, NamedBy, AllNamed, Leaving, Per.At, InLine, AckedBy, AllAcked, Members;
    WaitingAcks(c, level, next);
    var acks := c.spaces.At(level).pendingAcks;
    assert [] + acks == acks && acks + [] == acks;
    DepartAcks(c, level);
    LeavingNames(c, cap, level);
    WaitingNames(c, level, next);
    InLineSame(c, Depart(c).0, level, next);
  }

  /** Being in line is about the pending numbers only, and none pending is in line. */
  lemma InLineSame(c: Conn, d: Conn, level: Level, next: nat)
    requires InLine(c, level, next)
    requires d.spaces.At(level).pendingAcks == c.spaces.At(level).pendingAcks
             || d.spaces.At(level).pendingAcks == []
    ensures InLine(d, level, next)
  {
    hide Per.At;
  }

  lemma NamedOnce(a: seq<Departure>, b: seq<Departure>, level: Level)
    requires |a| <= 1
    ensures AllNamed(a + b, level) == AllNamed(a, level) + AllNamed(b, level)
    ensures AllAcked(a + b, level) == AllAcked(a, level) + AllAcked(b, level)
  {
    hide NamedBy, AckedBy;
    if |a| == 1 {
      assert (a + b)[1..] == b && a[1..] == [];
    } else {
      assert a + b == b;
    }
  }

  /** In every run that receives a space's packets once and consecutively, its ACKs name each
      received packet exactly once, in order: each names the packets since the last one. Read as
      section 19.3.1 of RFC 9000 says, they acknowledge these numbers and no others. */
  lemma {:induction false} EachAckedOnce(c: Conn, steps: seq<Step>, level: Level, next: nat)
    requires InLine(c, level, next)
    requires var got := AllArrivals(c, steps, level); got == Lifecycle.From(next, |got|)
    ensures var got := AllArrivals(c, steps, level);
            && InLine(Run(c, steps), level, next + |got|)
            && AllNamed(Departures(c, steps), level) + Run(c, steps).spaces.At(level).pendingAcks
               == c.spaces.At(level).pendingAcks + got
            && AllAcked(Departures(c, steps), level)
               == Members(AllNamed(Departures(c, steps), level))
    decreases |steps|
  {
    hide Next, Leaving, Arrivals, InLine;
    var acks := c.spaces.At(level).pendingAcks;
    if steps == [] {
      assert [] + acks == acks && acks + [] == acks;
    } else {
      hide Members;
      var d := Next(c, steps[0]);
      var first, rest := Arrivals(c, steps[0], level), AllArrivals(d, steps[1..], level);
      SplitRun(first, rest, next);
      StepAcks(c, steps[0], level, next);
      EachAckedOnce(d, steps[1..], level, next + |first|);
      Lifecycle.LeavingOne(c, steps[0]);
      NamedOnce(Leaving(c, steps[0]), Departures(d, steps[1..]), level);
      MembersConcat(AllNamed(Leaving(c, steps[0]), level), AllNamed(Departures(d, steps[1..]), level));
      Regroup(AllNamed(Leaving(c, steps[0]), level), AllNamed(Departures(d, steps[1..]), level),
              Run(c, steps).spaces.At(level).pendingAcks, d.spaces.At(level).pendingAcks,
              first, rest, acks);
    }
  }

  lemma Regroup(a: seq<nat>, b: seq<nat>, end: seq<nat>, mid: seq<nat>, first: seq<nat>,
                rest: seq<nat>, start: seq<nat>)
    requires a + mid == start + first && b + end == mid + rest
    ensures (a + b) + end == start + (first + rest)
  {
    calc {
      (a + b) + end;
      a + (b + end);
      a + (mid + rest);
      (a + mid) + rest;
      start + (first + rest);
    }
  }

  lemma SplitRun(first: seq<nat>, rest: seq<nat>, next: nat)
    requires first + rest == Lifecycle.From(next, |first + rest|)
    ensures first == Lifecycle.From(next, |first|)
    ensures rest == Lifecycle.From(next + |first|, |rest|)
  {
    assert forall i :: 0 <= i < |first| ==> (first + rest)[i] == first[i];
    assert forall i :: 0 <= i < |rest| ==> (first + rest)[|first| + i] == rest[i];
  }

  /** Such runs start with new connections; a server has packet 0 of the Initial space. */
  lemma ClientStartsInLine(oracle: Oracle, keys: Keys, dst: Data, src: Data, level: Level)
    requires Connect(oracle, keys, dst, src).Ok?
    ensures InLine(Connect(oracle, keys, dst, src).value.0, level, 0)
  {
    hide FirstInitial;
  }

  lemma ServerStartsInLine(packet: Data, oracle: Oracle, serverKeys: Data -> Keys, level: Level)
    requires Accept(packet, oracle, serverKeys).Ok?
    ensures InLine(Accept(packet, oracle, serverKeys).value, level, if level == INITIAL then 1 else 0)
  {
    hide OpenLong, PnOffsetLong, HelloIn, ServerHello;
    var h := Packets.LongHeaderAt(packet).value.0;
    var keys := serverKeys(h.dstCid);
    var hello := HelloIn(OpenLong(keys.remote, packet, PnOffsetLong(h)).value.1);
    var tls := ReadHs(Session(oracle, []), INITIAL, hello).0;
    HelloAcksNothing(WithKeys(Fresh(Server, Handshaking, tls, h.version, h.srcCid, h.dstCid), INITIAL, keys), level);
  }

  lemma HelloAcksNothing(c: Conn, level: Level)
    ensures ServerHello(c).spaces.At(level).pendingAcks == c.spaces.At(level).pendingAcks
  {
  }
}
