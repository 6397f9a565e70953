// A run of the sender, with a loss of exactly 65536 packets, after which the receiver outputs a
// NAL that was never sent.
module Splice {
  import opened Prelude
  import opened Fua
  import opened Streamers
  import opened Receivers

  // NALs of two fragments and of one.
  function Long(x: byte): Bytes {
    [1] + seq(1400, _ => x)
  }

  const SHORT: Bytes := [1]

  function Fillers(n: nat): seq<Action> {
    seq(n, _ => Send(SHORT, 1))
  }

  // A NAL of two fragments, n short ones and another one of two fragments: between the first
  // packet and the last one lie n + 2.
  function Calls(n: nat): seq<Action> {
    [Send(Long(0), 2)] + Fillers(n) + [Send(Long(2), 2)]
  }

  // All but the first and the last packet are lost.
  function Loss(n: nat): seq<bool> {
    seq(n + 4, i => i == 0 || i == n + 3)
  }

  lemma TwoFragments(x: byte)
    ensures |Long(x)| == 1401 && NalType(Long(x)) == 1 && |Fragments(Long(x), DEFAULT_MTU)| == 2
    ensures Cut(1401, DEFAULT_MTU, 1) == 1399
  {
    hide Fragment;
    assert Count(1401, DEFAULT_MTU) == 2 by {
      CountIff(1401, DEFAULT_MTU, 1);
      CountIff(1401, DEFAULT_MTU, 2);
    }
  }

  lemma OneFragment()
    ensures Fragments(SHORT, DEFAULT_MTU) == [SHORT] && NalType(SHORT) == 1
  {}

  lemma SendAppends(s: Stream, nal: Bytes)
    requires nal != []
    ensures var n := |Fragments(nal, DEFAULT_MTU)|;
            var t := Step(s, Send(nal, n));
            && |t.slots| == |s.slots| + n && s.slots <= t.slots
            && forall k :: |s.slots| <= k < |t.slots| ==> t.slots[k].nal == nal && t.slots[k].j == k - |s.slots|
  {
    hide Fragments, SequenceAfter;
  }

  lemma {:induction false} FillersAppend(start: Stream, first: seq<Action>, n: nat)
    ensures var before := Replay(start, first).slots;
            var after := Replay(start, first + Fillers(n)).slots;
            |after| == |before| + n && before <= after
  {
    OneFragment();
    hide Fragments, Step;
    if n == 0 {
      assert first + Fillers(0) == first;
    } else {
      FillersAppend(start, first, n - 1);
      assert first + Fillers(n) == first + Fillers(n - 1) + [Send(SHORT, 1)];
      ReplayAppend(start, first + Fillers(n - 1), Send(SHORT, 1));
      SendAppends(Replay(start, first + Fillers(n - 1)), SHORT);
    }
  }

  lemma CallsAreLegal(n: nat)
    ensures AllLegal(Calls(n)) && AllTypesInRange(Calls(n))
    ensures forall i :: 0 <= i < |Calls(n)| ==> Calls(n)[i].Send? && Calls(n)[i].nal in [Long(0), SHORT, Long(2)]
  {
    TwoFragments(0);
    TwoFragments(2);
    OneFragment();
    hide Fragments, Long, Cut;
    var calls := Calls(n);
    assert forall i :: 0 <= i < |calls| ==>
      calls[i] == if i == 0 then Send(Long(0), 2) else if i == |calls| - 1 then Send(Long(2), 2) else Send(SHORT, 1);
  }

  lemma SlotsOfCalls(sequence: uint16, ssrc: uint32, n: nat)
    ensures var slots := SlotsIn(Start(sequence, ssrc), Calls(n));
            && |slots| == n + 4
            && slots[0].nal == Long(0) && slots[0].j == 0
            && slots[n + 3].nal == Long(2) && slots[n + 3].j == 1
  {
    hide Fragments, Step, Long, Cut, Fillers;
    var start := Start(sequence, ssrc);
    var first := [Send(Long(0), 2)];
    var most := first + Fillers(n);
    TwoFragments(0);
    TwoFragments(2);
    ReplayAppend(start, [], Send(Long(0), 2));
    assert [] + first == first;
    SendAppends(Replay(start, []), Long(0));
    FillersAppend(start, first, n);
    ReplayAppend(start, most, Send(Long(2), 2));
    SendAppends(Replay(start, most), Long(2));
  }

  // What comes out: the beginning of the first NAL and the end of the last one.
  function JoinedNal(): Bytes {
    Long(0)[..1399] + Long(2)[1399..]
  }

  lemma JoinedIsNew()
    ensures JoinedNal() !in [Long(0), SHORT, Long(2)]
  {
    var x := JoinedNal();
    assert |x| == 1401 && x[1400] == Long(2)[1400] == 2 && x[1] == Long(0)[1] == 0;
    assert Long(0)[1400] == 0 && Long(2)[1] == 2;
  }

  lemma LastPayload(slot: Slot)
    requires slot.nal == Long(2) && slot.j == 1 && Sound(slot)
    ensures IsLast(slot) && |Payload(slot)| > 2 && Payload(slot)[2..] == Long(2)[1399..]
  {
    TwoFragments(2);
    JoinedParts(slot);
    var previous := slot.(j := 0);
    FirstJoined(previous, 2);
    hide Fragments, JoinedLength, Payload, Long;
    var nal, tail := slot.nal, Payload(slot)[2..];
    assert nal[..|nal|] == nal;
    assert nal[..1399] + tail == nal;
    assert nal[1399..] == tail;
  }

  lemma FirstJoined(slot: Slot, x: byte)
    requires slot.nal == Long(x) && slot.j == 0 && Sound(slot)
    ensures !IsLast(slot) && JoinedLength(slot) == 1399
  {
    TwoFragments(x);
    hide Fragments, Cut;
  }

  lemma ReceivesSplice(sequence: uint16, ssrc: uint32, slots: seq<Slot>, n: nat)
    requires WellBuilt(sequence, ssrc, slots) && AllSound(slots) && Chained(slots) && AllInRange(slots)
    requires |slots| == n + 4 && slots[0].nal == Long(0) && slots[0].j == 0
    requires slots[n + 3].nal == Long(2) && slots[n + 3].j == 1 && (n + 2) % 0x1_0000 == 0
    ensures |Loss(n)| == |slots| && ReceiveAll(Kept(slots, Loss(n), |slots|)).1 == [JoinedNal()]
  {
    hide Long, Fragments, JoinedLength, Payload, IsLast, ReceiveAll, Kept, WellBuilt, AllSound, Chained, AllInRange;
    var keep := Loss(n);
    IsSound(slots, 0);
    IsSound(slots, n + 3);
    FirstJoined(slots[0], 0);
    LastPayload(slots[n + 3]);
    assert keep[0] && keep[n + 3] && forall i :: 0 < i < n + 3 ==> !keep[i];
    LongBurstSplices(sequence, ssrc, slots, keep, 0, n + 3);
    ReceivesOutput(sequence, ssrc, slots, keep, 1);
    OneIsNothing(slots, keep);
  }

  lemma OneIsNothing(slots: seq<Slot>, keep: seq<bool>)
    requires |slots| == |keep| > 1 && AllSound(slots) && !IsLast(slots[0])
    ensures Output(slots, keep, 1) == []
  {}

  // That a receiver which requires consecutive numbers outputs only sent NALs is false: when
  // 65536 packets, or a multiple of that, are lost here, it outputs one that was not sent; with
  // n == 65534 the loss is the shortest.
  lemma BurstMakesNewNal(sequence: uint16, ssrc: uint32, n: nat)
    requires (n + 2) % 0x1_0000 == 0
    ensures AllLegal(Calls(n)) && AllTypesInRange(Calls(n))
    ensures var slots := SlotsIn(Start(sequence, ssrc), Calls(n));
            && AllSound(slots) && |Loss(n)| == |slots|
            && ReceiveAll(Kept(slots, Loss(n), |slots|)).1 == [JoinedNal()]
            && forall i :: 0 <= i < |Calls(n)| ==> Calls(n)[i].Send? && Calls(n)[i].nal != JoinedNal()
  {
    CallsAreLegal(n);
    JoinedIsNew();
    SlotsOfCalls(sequence, ssrc, n);
    ReplayIsWellBuilt(sequence, ssrc, Calls(n));
    StartHasNoSlots(sequence, ssrc);
    SlotsInRange(Start(sequence, ssrc), Calls(n));
    var slots := SlotsIn(Start(sequence, ssrc), Calls(n));
    hide *;
    WellBuiltBasics(sequence, ssrc, slots);
    ReceivesSplice(sequence, ssrc, slots, n);
  }
}
