/** Packet numbers over whole runs: what truncation takes away, the receiver's state restores. */
module PacketNumbers {
  import opened Bytes
  import opened Packets
  import opened PacketLaws
  import opened Protection
  import Lifecycle

  /** The packet number as its sender writes it: one, two or four bytes. */
  function Truncated(pn: nat): (s: Data)
    ensures |s| == EncodedPnLen(pn)
  {
    BigEndian(pn, EncodedPnLen(pn))
  }

  /** What a receiver makes of the bytes, given the largest number it has seen. */
  function Restored(largest: nat, bytes: Data): nat
    requires 1 <= |bytes| <= 4
  {
    DecodePacketNumber(largest, ReadPn(bytes), |bytes|)
  }

  function Larger(largest: nat, pn: nat): nat
  {
    if pn > largest then pn else largest
  }

  /** The numbers a receiver restores from packets in the order of their arrival. */
  function Recovered(largest: nat, sent: seq<nat>): (r: seq<nat>)
    ensures |r| == |sent|
    decreases |sent|
  {
    if sent == [] then []
    else
      var pn := Restored(largest, Truncated(sent[0]));
      [pn] + Recovered(Larger(largest, pn), sent[1..])
  }

  /** The receiver can tell the number from the others with its last bytes: it is in the window
      around the next expected number, or in the first block with nothing meant below zero. */
  predicate Distinct(largest: nat, pn: nat)
  {
    var n := EncodedPnLen(pn);
    InWindow(largest, pn, n) || (pn < Pow256(n) && pn > largest + 1 + Pow256(n) / 2)
  }

  predicate AllDistinct(largest: nat, sent: seq<nat>)
    decreases |sent|
  {
    sent == [] || (Distinct(largest, sent[0]) && AllDistinct(Larger(largest, sent[0]), sent[1..]))
  }

  /** One number survives truncation exactly when it is distinct. */
  lemma RestoredIff(largest: nat, pn: nat)
    ensures Restored(largest, Truncated(pn)) == pn <==> Distinct(largest, pn)
  {
    hide Mod, Pow256, DecodePacketNumber, ReadPn, BigEndian;
    ReadTruncated(pn, EncodedPnLen(pn));
    DecodeInverts(largest, pn, EncodedPnLen(pn));
  }

  /** A run of packets, with whatever loss, repetition and reordering, is numbered by the
      receiver as it was by the sender exactly when each number is distinct on arrival. */
  lemma {:induction false} RecoveredIff(largest: nat, sent: seq<nat>)
    ensures Recovered(largest, sent) == sent <==> AllDistinct(largest, sent)
    decreases |sent|
  {
    hide Restored, Truncated, Distinct;
    if sent != [] {
      RestoredIff(largest, sent[0]);
      var pn := Restored(largest, Truncated(sent[0]));
      var rest := Recovered(Larger(largest, pn), sent[1..]);
      if pn == sent[0] {
        RecoveredIff(Larger(largest, pn), sent[1..]);
        assert sent == [pn] + sent[1..];
        assert ([pn] + rest)[1..] == rest;
      } else {
        assert ([pn] + rest)[0] == pn;
      }
    }
  }

  /** Numbers not more than 127 away from the expected one are distinct at every length. */
  lemma NearIsDistinct(largest: nat, pn: nat)
    requires largest + 1 <= pn + 127 && pn <= largest + 128
    ensures Distinct(largest, pn)
  {
    hide Pow256;
    PowEven(EncodedPnLen(pn));
  }

  /** Loss and reordering inside that distance. */
  predicate Near(largest: nat, sent: seq<nat>)
    decreases |sent|
  {
    sent == [] || (largest + 1 <= sent[0] + 127 && sent[0] <= largest + 128
                   && Near(Larger(largest, sent[0]), sent[1..]))
  }

  lemma {:induction false} NearRecovered(largest: nat, sent: seq<nat>)
    requires Near(largest, sent)
    ensures Recovered(largest, sent) == sent
  {
    NearAllDistinct(largest, sent);
    RecoveredIff(largest, sent);
  }

  lemma {:induction false} NearAllDistinct(largest: nat, sent: seq<nat>)
    requires Near(largest, sent)
    ensures AllDistinct(largest, sent)
    decreases |sent|
  {
    hide Distinct;
    if sent != [] {
      NearIsDistinct(largest, sent[0]);
      NearAllDistinct(Larger(largest, sent[0]), sent[1..]);
    }
  }

  lemma {:induction false} ConsecutiveNear(start: nat, count: nat)
    ensures Near(if start == 0 then 0 else start - 1, Lifecycle.From(start, count))
    decreases count
  {
    if count > 0 {
      assert Lifecycle.From(start, count)[1..] == Lifecycle.From(start + 1, count - 1);
      ConsecutiveNear(start + 1, count - 1);
    }
  }

  /** A space that loses nothing never desynchronises: a run of any length, from any number on
      and through all three encodings, is numbered as it was sent. */
  lemma NeverDesynchronised(start: nat, count: nat)
    ensures var sent := Lifecycle.From(start, count);
            Recovered(if start == 0 then 0 else start - 1, sent) == sent
  {
    ConsecutiveNear(start, count);
    NearRecovered(if start == 0 then 0 else start - 1, Lifecycle.From(start, count));
  }

  /** The window is needed: a packet that arrives 190 numbers late is taken for a later one. */
  lemma LateIsMisread()
    ensures Recovered(200, [10]) == [266]
  {
    assert Pow256(1) == 256 && Pow256(0) == 1;
    ReadTruncated(10, 1);
    assert Mod(10, 256) == 10 && Floor(201, 256) == 0;
    assert [10][1..] == [];
  }
}
