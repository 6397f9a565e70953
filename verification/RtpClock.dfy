// The RTP fields of a whole run in closed form, for a streamer that the hub drives: one send
// per NAL and one clock step after each NAL that ends a frame (src/media/hub.cpp, on_nal).
module RtpClock {
  import opened Prelude
  import opened Fua
  import opened Packetizer
  import opened Streamers
  import opened Receivers

  // What on_nal calls on one subscriber. sent tells how many packets of each NAL the socket took.
  function HubCalls(nals: seq<Bytes>, taken: seq<nat>, increment: uint32): seq<Action>
    requires |taken| == |nals| && NoEmptyNal(nals)
  {
    if nals == [] then []
    else
      var n := |nals| - 1;
      HubCalls(nals[..n], taken[..n], increment) + OneNal(nals[n], taken[n], increment)
  }

  function OneNal(nal: Bytes, taken: nat, increment: uint32): seq<Action>
    requires nal != []
  {
    [Send(nal, taken)] + if IsVcl(nal) then [Advance(increment)] else []
  }

  predicate NoEmptyNal(nals: seq<Bytes>) {
    forall i :: 0 <= i < |nals| ==> nals[i] != []
  }

  // How many of the NALs end a frame.
  function VclCount(nals: seq<Bytes>): nat
    requires NoEmptyNal(nals)
  {
    if nals == [] then 0
    else VclCount(nals[..|nals| - 1]) + if IsVcl(nals[|nals| - 1]) then 1 else 0
  }

  // These are the NALs of type 1 or 5.
  lemma {:induction false} FrameCount(nals: seq<Bytes>)
    requires NoEmptyNal(nals)
    ensures VclCount(nals) == |set i | 0 <= i < |nals| && (nals[i][0] & 0x1F == 1 || nals[i][0] & 0x1F == 5)|
  {
    if nals != [] {
      var n := |nals| - 1;
      FrameCount(nals[..n]);
      var before := set i | 0 <= i < n && (nals[..n][i][0] & 0x1F == 1 || nals[..n][i][0] & 0x1F == 5);
      var all := set i | 0 <= i < |nals| && (nals[i][0] & 0x1F == 1 || nals[i][0] & 0x1F == 5);
      assert all == before + if IsVcl(nals[n]) then {n} else {};
    }
  }

  lemma ReplayTwo(s: Stream, actions: seq<Action>, nal: Bytes, taken: nat, increment: uint32)
    requires nal != []
    ensures var sent := Step(Replay(s, actions), Send(nal, taken));
            Replay(s, actions + OneNal(nal, taken, increment)) ==
            if IsVcl(nal) then Step(sent, Advance(increment)) else sent
  {
    ReplayAppend(s, actions, Send(nal, taken));
    if IsVcl(nal) {
      ReplayAppend(s, actions + [Send(nal, taken)], Advance(increment));
      assert actions + OneNal(nal, taken, increment) == actions + [Send(nal, taken)] + [Advance(increment)];
    } else {
      assert actions + OneNal(nal, taken, increment) == actions + [Send(nal, taken)];
    }
  }

  // The state of the streamer after a list of NALs.
  function After(sequence: uint16, ssrc: uint32, nals: seq<Bytes>, taken: seq<nat>, increment: uint32): Stream
    requires |taken| == |nals| && NoEmptyNal(nals)
  {
    Replay(Start(sequence, ssrc), HubCalls(nals, taken, increment))
  }

  // The RTP clock after n frames.
  function Ticks(increment: uint32, n: nat): uint32 {
    (increment * n) % 0x1_0000_0000
  }

  lemma NextTick(increment: uint32, n: nat)
    ensures Ticks(increment, n + 1) == (Ticks(increment, n) + increment) % 0x1_0000_0000
    ensures Ticks(increment, 0) == 0
  {
    assert increment * (n + 1) == increment * n + increment;
    AddMod(increment * n, increment, 0x1_0000_0000);
  }

  // The clock stands at the increment times the number of frames so far, modulo 2^32.
  lemma {:induction false} ClockAfter(sequence: uint16, ssrc: uint32, nals: seq<Bytes>, taken: seq<nat>,
                                      increment: uint32)
    requires |taken| == |nals| && NoEmptyNal(nals)
    ensures After(sequence, ssrc, nals, taken, increment).timestamp == Ticks(increment, VclCount(nals))
  {
    hide IsVcl, Ticks, Fragments, SequenceAfter, SlotsAfter;
    NextTick(increment, 0);
    if nals != [] {
      var n := |nals| - 1;
      ClockAfter(sequence, ssrc, nals[..n], taken[..n], increment);
      ReplayTwo(Start(sequence, ssrc), HubCalls(nals[..n], taken[..n], increment), nals[n], taken[n], increment);
      NextTick(increment, VclCount(nals[..n]));
    }
  }

  // One more NAL adds its packets behind the others: fragments 0, 1, ... of it, all with the
  // time at which it was broadcast.
  lemma PacketsOfLast(sequence: uint16, ssrc: uint32, nals: seq<Bytes>, taken: seq<nat>, increment: uint32)
    requires |taken| == |nals| && NoEmptyNal(nals) && nals != []
    ensures var n := |nals| - 1;
            var before := After(sequence, ssrc, nals[..n], taken[..n], increment);
            After(sequence, ssrc, nals, taken, increment).slots ==
            SlotsAfter(before, Send(nals[n], taken[n]), BuiltCount(Send(nals[n], taken[n])))
  {
    var n := |nals| - 1;
    ReplayTwo(Start(sequence, ssrc), HubCalls(nals[..n], taken[..n], increment), nals[n], taken[n], increment);
    hide IsVcl, Replay, Fragments, SequenceAfter, SlotsAfter;
  }

  // The header that packet k of a run must have, as fragment j of a NAL sent behind these.
  function ClosedForm(sequence: uint16, ssrc: uint32, k: nat, earlier: seq<Bytes>, increment: uint32,
                      nal: Bytes, j: nat): Header
    requires NoEmptyNal(earlier)
  {
    Header(PAYLOAD_TYPE, SequenceAfter(sequence, k), Ticks(increment, VclCount(earlier)), ssrc,
           j + 1 == |Fragments(nal, DEFAULT_MTU)|)
  }

  lemma LatestPacket(sequence: uint16, ssrc: uint32, nals: seq<Bytes>, taken: seq<nat>, increment: uint32, j: nat)
    requires |taken| == |nals| && NoEmptyNal(nals) && nals != []
    requires var n := |nals| - 1; j < BuiltCount(Send(nals[n], taken[n]))
    ensures var n := |nals| - 1;
            var k := |After(sequence, ssrc, nals[..n], taken[..n], increment).slots| + j;
            var slots := After(sequence, ssrc, nals, taken, increment).slots;
            && |slots| == k - j + BuiltCount(Send(nals[n], taken[n]))
            && slots[k] == Slot(nals[n], j, ClosedForm(sequence, ssrc, k, nals[..n], increment, nals[n], j),
                j < taken[n])
  {
    hide Fragments, BuiltCount, Ticks;
    var n := |nals| - 1;
    var before := After(sequence, ssrc, nals[..n], taken[..n], increment);
    PacketsOfLast(sequence, ssrc, nals, taken, increment);
    ClockAfter(sequence, ssrc, nals[..n], taken[..n], increment);
    ReplayCounters(sequence, ssrc, HubCalls(nals[..n], taken[..n], increment));
    AddMod(sequence + |before.slots|, j, 0x1_0000);
    assert SequenceAfter(before.sequence, j) == SequenceAfter(sequence, |before.slots| + j);
    assert SlotsAfter(before, Send(nals[n], taken[n]), BuiltCount(Send(nals[n], taken[n])))[|before.slots| + j]
        == SlotOf(before, Send(nals[n], taken[n]), j);
  }

  lemma EarlierPackets(sequence: uint16, ssrc: uint32, nals: seq<Bytes>, taken: seq<nat>, increment: uint32)
    requires |taken| == |nals| && NoEmptyNal(nals) && nals != []
    ensures var n := |nals| - 1;
            After(sequence, ssrc, nals[..n], taken[..n], increment).slots
            <= After(sequence, ssrc, nals, taken, increment).slots
  {
    hide After, BuiltCount;
    PacketsOfLast(sequence, ssrc, nals, taken, increment);
  }

  // Closed form of a run: packet k, the j-th of NAL i, carries the sequence number s0 + k mod
  // 2^16, the one SSRC, the marker exactly on the final fragment, and as timestamp the
  // increment times the frames broadcast before NAL i, mod 2^32.
  lemma {:induction false} PacketsOfNal(sequence: uint16, ssrc: uint32, nals: seq<Bytes>, taken: seq<nat>,
                                        increment: uint32, i: nat, j: nat)
    requires |taken| == |nals| && NoEmptyNal(nals) && i < |nals| && j < BuiltCount(Send(nals[i], taken[i]))
    ensures var k := |After(sequence, ssrc, nals[..i], taken[..i], increment).slots| + j;
            var slots := After(sequence, ssrc, nals, taken, increment).slots;
            && k < |slots|
            && slots[k] == Slot(nals[i], j, ClosedForm(sequence, ssrc, k, nals[..i], increment, nals[i], j),
                j < taken[i])
    decreases |nals|
  {
    hide After, BuiltCount, ClosedForm;
    var n := |nals| - 1;
    if i < n {
      assert nals[..n][..i] == nals[..i] && taken[..n][..i] == taken[..i];
      PacketsOfNal(sequence, ssrc, nals[..n], taken[..n], increment, i, j);
      EarlierPackets(sequence, ssrc, nals, taken, increment);
    } else {
      LatestPacket(sequence, ssrc, nals, taken, increment, j);
    }
  }
}
