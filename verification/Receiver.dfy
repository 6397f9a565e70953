// A receiver for the sender's packets, and what it gets out of them when packets are lost and
// sends fail: exactly the NALs all of whose fragments arrived.
module Receivers {
  import opened Prelude
  import opened Fua
  import opened Packetizer
  import opened Streamers

  // ----- The receiver -----

  // Between two packets a receiver is joining a fragmented NAL, of which it expects the
  // fragment with the next sequence number, or it is not.
  datatype Receiver = Idle | Joining(next: uint16, nal: Bytes)

  // Takes a single NAL unit packet (types 1 to 23) as it is. Fragments (type 28) are joined
  // from the one with S to the one with E, with consecutive sequence numbers in between.
  function Receive(r: Receiver, packet: Bytes): (Receiver, seq<Bytes>) {
    match ParseHeader(packet)
    case None => (Idle, [])
    case Some(h) =>
      var payload := packet[RTP_HEADER_SIZE..];
      if payload != [] && 1 <= NalType(payload) <= 23 then (Idle, [payload])
      else if |payload| > 2 && NalType(payload) == 28 then
        if StartBit(payload) then
          (Joining(SequenceAfter(h.sequence, 1), [RebuiltHeader(payload)] + payload[2..]), [])
        else if r.Joining? && h.sequence == r.next then
          if EndBit(payload) then (Idle, [r.nal + payload[2..]])
          else (Joining(SequenceAfter(h.sequence, 1), r.nal + payload[2..]), [])
        else (Idle, [])
      else (Idle, [])
  }

  function ReceiveAll(packets: seq<Bytes>): (Receiver, seq<Bytes>) {
    if packets == [] then (Idle, [])
    else
      var (r, out) := ReceiveAll(packets[..|packets| - 1]);
      var (r', more) := Receive(r, packets[|packets| - 1]);
      (r', out + more)
  }

  // ----- The packets of a run -----

  predicate TypeInRange(nal: Bytes) {
    nal != [] && 1 <= NalType(nal) <= 23
  }

  // What every run builds: fragments in order from the first one of each NAL, numbered
  // consecutively from the drawn sequence number, the marker on the last fragment of a NAL.
  predicate WellBuilt(sequence: uint16, ssrc: uint32, slots: seq<Slot>) {
    forall k :: 0 <= k < |slots| ==> SlotOk(sequence, ssrc, slots, k)
  }

  predicate SlotOk(sequence: uint16, ssrc: uint32, slots: seq<Slot>, k: nat)
    requires k < |slots|
  {
    var slot := slots[k];
    && Sound(slot)
    && slot.header.payloadType == PAYLOAD_TYPE && slot.header.ssrc == ssrc
    && slot.header.sequence == SequenceAfter(sequence, k)
    && slot.header.marker == IsLast(slot)
    && (slot.j > 0 ==>
          && k > 0 && slots[k - 1].nal == slot.nal && slots[k - 1].j == slot.j - 1
          && (slot.taken ==> slots[k - 1].taken))
  }

  lemma StepIsWellBuilt(sequence: uint16, s: Stream, a: Action)
    requires WellBuilt(sequence, s.ssrc, s.slots) && s.sequence == SequenceAfter(sequence, |s.slots|)
    requires Legal(a) && a.Send?
    ensures WellBuilt(sequence, s.ssrc, Step(s, a).slots)
  {
    var slots := Step(s, a).slots;
    var n := |s.slots|;
    assert slots == s.slots + SlotsOf(s, a, BuiltCount(a));
    forall k | 0 <= k < |slots| ensures SlotOk(sequence, s.ssrc, slots, k) {
      if k < n {
        assert SlotOk(sequence, s.ssrc, s.slots, k);
      } else {
        AddMod(sequence + n, k - n, 0x1_0000);
        assert slots[k] == SlotOf(s, a, k - n);
        hide SequenceAfter, Fragments;
      }
    }
  }

  lemma {:induction false} ReplayIsWellBuilt(sequence: uint16, ssrc: uint32, actions: seq<Action>)
    requires AllLegal(actions)
    ensures WellBuilt(sequence, ssrc, Replay(Start(sequence, ssrc), actions).slots)
  {
    if actions != [] {
      var before := actions[..|actions| - 1];
      ReplayIsWellBuilt(sequence, ssrc, before);
      ReplayCounters(sequence, ssrc, before);
      hide WellBuilt, SequenceAfter, Legal;
      if actions[|actions| - 1].Send? {
        StepIsWellBuilt(sequence, Replay(Start(sequence, ssrc), before), actions[|actions| - 1]);
      }
    }
  }

  // The datagrams that reach the receiver among the first k packets built: those that are kept.
  function Kept(slots: seq<Slot>, keep: seq<bool>, k: nat): seq<Bytes>
    requires k <= |slots| == |keep| && AllSound(slots)
  {
    if k == 0 then []
    else Kept(slots, keep, k - 1)
         + if keep[k - 1] then [PacketBytes(slots[k - 1].header, Payload(slots[k - 1]))] else []
  }

  // All fragments of the NAL that fragment k belongs to, up to fragment k, are kept.
  predicate KeptSoFar(slots: seq<Slot>, keep: seq<bool>, k: nat)
    requires k < |slots| == |keep| && slots[k].j <= k
  {
    forall i :: k - slots[k].j <= i <= k ==> keep[i]
  }

  // The NALs all of whose fragments are among the first k packets, and kept.
  function Complete(slots: seq<Slot>, keep: seq<bool>, k: nat): seq<Bytes>
    requires k <= |slots| == |keep| && Chained(slots)
  {
    if k == 0 then []
    else Complete(slots, keep, k - 1)
         + if IsLast(slots[k - 1]) && KeptSoFar(slots, keep, k - 1) then [slots[k - 1].nal] else []
  }

  predicate AllInRange(slots: seq<Slot>) {
    forall i :: 0 <= i < |slots| ==> TypeInRange(slots[i].nal)
  }

  predicate Chained(slots: seq<Slot>) {
    forall k :: 0 <= k < |slots| ==> slots[k].j <= k
  }

  // Index of the last kept packet before k, or -1.
  function LastKept(keep: seq<bool>, k: nat): (l: int)
    requires k <= |keep|
    ensures -1 <= l < k && (l >= 0 ==> keep[l])
    ensures forall i :: l < i < k ==> !keep[i]
  {
    if k == 0 then -1 else if keep[k - 1] then k - 1 else LastKept(keep, k - 1)
  }

  // Where the packet after a loss is in the middle of a NAL, not exactly a multiple of 65536
  // packets was lost.
  predicate NoLongBurst(slots: seq<Slot>, keep: seq<bool>)
    requires |slots| == |keep|
  {
    forall k: nat :: k < |keep| && keep[k] && slots[k].j > 0 && LastKept(keep, k) >= 0 ==>
      LastKept(keep, k) == k - 1 || (k - LastKept(keep, k) - 1) % 0x1_0000 != 0
  }

  // ----- One packet -----

  // What the receiver does with packet j of a NAL, in terms of the NAL and not of its bits.
  lemma ReceiveSlot(r: Receiver, slot: Slot)
    requires Sound(slot) && TypeInRange(slot.nal) && slot.header.payloadType == PAYLOAD_TYPE
    ensures var fragments := Fragments(slot.nal, DEFAULT_MTU);
            var next := SequenceAfter(slot.header.sequence, 1);
            Receive(r, PacketBytes(slot.header, Payload(slot))) ==
            if |fragments| == 1 then (Idle, [slot.nal])
            else if slot.j == 0 then (Joining(next, [slot.nal[0]] + fragments[0][2..]), [])
            else if r.Joining? && slot.header.sequence == r.next then
              var joined := r.nal + Payload(slot)[2..];
              if IsLast(slot) then (Idle, [joined]) else (Joining(next, joined), [])
            else (Idle, [])
  {
    ParseBuilt(slot.header, Payload(slot));
    if |slot.nal| > DEFAULT_MTU {
      RejoinFragments(slot.nal, DEFAULT_MTU);
      FragmentParts(slot.nal, DEFAULT_MTU, slot.j);
      assert Payload(slot) == Fragment(slot.nal, DEFAULT_MTU, slot.j);
    }
    hide Fragments, Count, Cut, ParseHeader, PacketBytes, RebuiltHeader, StartBit, EndBit, SequenceAfter, Fragment;
  }

  // Two packets have the same number exactly if they are a multiple of 65536 packets apart.
  lemma SequenceSame(s: uint16, a: nat, b: nat)
    requires a <= b
    ensures SequenceAfter(s, a) == SequenceAfter(s, b) <==> (b - a) % 0x1_0000 == 0
  {}

  // ----- A run -----

  lemma ReceiveOneMore(packets: seq<Bytes>, packet: Bytes)
    ensures var (r, out) := ReceiveAll(packets);
            var (r', more) := Receive(r, packet);
            ReceiveAll(packets + [packet]) == (r', out + more)
  {
    assert (packets + [packet])[..|packets|] == packets;
  }

  // How much of its NAL fragments 0 to slot.j carry.
  function JoinedLength(slot: Slot): (n: nat)
    requires Sound(slot)
    ensures n <= |slot.nal|
  {
    if |slot.nal| <= DEFAULT_MTU then |slot.nal|
    else Cut(|slot.nal|, DEFAULT_MTU, slot.j + 1)
  }

  // Fragment j continues where fragment j - 1 stopped, and the last one completes the NAL.
  lemma JoinedParts(slot: Slot)
    requires Sound(slot)
    ensures IsLast(slot) ==> JoinedLength(slot) == |slot.nal|
    ensures !IsLast(slot) || slot.j > 0 ==> |Payload(slot)| > 2
    ensures !IsLast(slot) && slot.j == 0 ==>
              slot.nal[..JoinedLength(slot)] == [slot.nal[0]] + Payload(slot)[2..]
    ensures slot.j > 0 ==>
              var previous := slot.(j := slot.j - 1);
              && Sound(previous) && !IsLast(previous)
              && slot.nal[..JoinedLength(slot)] == slot.nal[..JoinedLength(previous)] + Payload(slot)[2..]
  {
    if |slot.nal| > DEFAULT_MTU {
      LongParts(slot);
    }
  }

  lemma LongParts(slot: Slot)
    requires Sound(slot) && |slot.nal| > DEFAULT_MTU
    ensures IsLast(slot) ==> JoinedLength(slot) == |slot.nal|
    ensures |Payload(slot)| > 2
    ensures slot.j == 0 ==> slot.nal[..JoinedLength(slot)] == [slot.nal[0]] + Payload(slot)[2..]
    ensures slot.j > 0 ==>
              var previous := slot.(j := slot.j - 1);
              && Sound(previous) && !IsLast(previous)
              && slot.nal[..JoinedLength(slot)] == slot.nal[..JoinedLength(previous)] + Payload(slot)[2..]
  {
    hide Count, Cut, Fragment, RebuiltHeader, StartBit, EndBit;
    RejoinFragments(slot.nal, DEFAULT_MTU);
    FragmentParts(slot.nal, DEFAULT_MTU, slot.j);
    CutBounds(|slot.nal|, DEFAULT_MTU, slot.j);
    assert Payload(slot) == Fragment(slot.nal, DEFAULT_MTU, slot.j);
  }

  lemma WellBuiltBasics(sequence: uint16, ssrc: uint32, slots: seq<Slot>)
    requires WellBuilt(sequence, ssrc, slots)
    ensures AllSound(slots) && Chained(slots)
  {
    forall k | 0 <= k < |slots| ensures slots[k].j <= k && Sound(slots[k]) {
      assert SlotOk(sequence, ssrc, slots, k);
      ChainedAt(sequence, ssrc, slots, k);
    }
  }

  lemma {:induction false} ChainedAt(sequence: uint16, ssrc: uint32, slots: seq<Slot>, k: nat)
    requires WellBuilt(sequence, ssrc, slots) && k < |slots|
    ensures slots[k].j <= k
  {
    assert SlotOk(sequence, ssrc, slots, k);
    if slots[k].j > 0 {
      ChainedAt(sequence, ssrc, slots, k - 1);
    }
  }

  // ----- What the receiver makes of a loss pattern -----

  // The fragments that are being joined, in terms of the loss pattern alone: up to packet last;
  // whole, if they are all the fragments so far of one NAL.
  datatype Chain = NoChain | Chain(last: nat, whole: bool)

  // Packet i has the number that the receiver expects behind the chain.
  predicate Continues(c: Chain, i: nat) {
    c.Chain? && c.last < i && (i - c.last - 1) % 0x1_0000 == 0
  }

  function ChainAt(slots: seq<Slot>, keep: seq<bool>, k: nat): Chain
    requires k <= |slots| == |keep|
  {
    if k == 0 then NoChain
    else
      var c := ChainAt(slots, keep, k - 1);
      if !keep[k - 1] then c
      else if IsLast(slots[k - 1]) then NoChain
      else if slots[k - 1].j == 0 then Chain(k - 1, true)
      else if Continues(c, k - 1) then Chain(k - 1, c.whole && c.last + 1 == k - 1)
      else NoChain
  }

  // The octets that are held for it.
  function ChainData(slots: seq<Slot>, keep: seq<bool>, k: nat): Bytes
    requires k <= |slots| == |keep| && AllSound(slots)
  {
    if k == 0 then []
    else
      var data := ChainData(slots, keep, k - 1);
      var slot := slots[k - 1];
      if !keep[k - 1] then data
      else if IsLast(slot) then []
      else if slot.j == 0 then slot.nal[..JoinedLength(slot)]
      else if Continues(ChainAt(slots, keep, k - 1), k - 1) && |Payload(slot)| > 2 then data + Payload(slot)[2..]
      else []
  }

  // What the receiver outputs at packet i: the NAL of a single packet, or what the chain and
  // the final fragment make.
  function OutputAt(slots: seq<Slot>, keep: seq<bool>, i: nat): seq<Bytes>
    requires i < |slots| == |keep| && AllSound(slots)
  {
    var slot := slots[i];
    if !keep[i] || !IsLast(slot) then []
    else if slot.j == 0 then [slot.nal]
    else if Continues(ChainAt(slots, keep, i), i) && |Payload(slot)| > 2
    then [ChainData(slots, keep, i) + Payload(slot)[2..]]
    else []
  }

  function Output(slots: seq<Slot>, keep: seq<bool>, k: nat): seq<Bytes>
    requires k <= |slots| == |keep| && AllSound(slots)
  {
    if k == 0 then [] else Output(slots, keep, k - 1) + OutputAt(slots, keep, k - 1)
  }

  // The state of the receiver.
  function StateAt(sequence: uint16, slots: seq<Slot>, keep: seq<bool>, k: nat): Receiver
    requires k <= |slots| == |keep| && AllSound(slots)
  {
    match ChainAt(slots, keep, k)
    case NoChain => Idle
    case Chain(last, _) => Joining(SequenceAfter(sequence, last + 1), ChainData(slots, keep, k))
  }

  lemma ChainIsBefore(slots: seq<Slot>, keep: seq<bool>, k: nat)
    requires k <= |slots| == |keep|
    ensures var c := ChainAt(slots, keep, k);
            c.Chain? ==> c.last < k && keep[c.last] && !IsLast(slots[c.last]) && LastKept(keep, k) == c.last
  {
    hide IsLast;
  }

  lemma ReceiveKept(sequence: uint16, ssrc: uint32, slots: seq<Slot>, keep: seq<bool>, k: nat)
    requires k < |slots| == |keep| && SlotOk(sequence, ssrc, slots, k) && AllSound(slots)
    requires TypeInRange(slots[k].nal) && keep[k]
    ensures Receive(StateAt(sequence, slots, keep, k), PacketBytes(slots[k].header, Payload(slots[k])))
            == (StateAt(sequence, slots, keep, k + 1), OutputAt(slots, keep, k))
  {
    hide SequenceAfter, Fragments, Receive, PacketBytes, JoinedLength, TypeInRange, AllSound, Sound, IsLast;
    var slot := slots[k];
    var r := StateAt(sequence, slots, keep, k);
    IsSound(slots, k);
    ReceiveSlot(r, slot);
    JoinedParts(slot);
    SequenceStep(sequence, k);
    ChainIsBefore(slots, keep, k);
    if r.Joining? {
      SequenceSame(sequence, ChainAt(slots, keep, k).last + 1, k);
    }
    SingleIsLast(slot);
  }

  lemma IsSound(slots: seq<Slot>, k: nat)
    requires AllSound(slots) && k < |slots|
    ensures Sound(slots[k])
  {}

  lemma SingleIsLast(slot: Slot)
    requires Sound(slot)
    ensures |Fragments(slot.nal, DEFAULT_MTU)| == 1 <==> slot.j == 0 && IsLast(slot)
  {}

  // For every loss pattern, what the receiver outputs and where it stands.
  lemma {:induction false} ReceivesOutput(sequence: uint16, ssrc: uint32, slots: seq<Slot>, keep: seq<bool>, k: nat)
    requires k <= |slots| == |keep| && WellBuilt(sequence, ssrc, slots) && AllSound(slots) && AllInRange(slots)
    ensures ReceiveAll(Kept(slots, keep, k)) == (StateAt(sequence, slots, keep, k), Output(slots, keep, k))
  {
    hide *;
    if k == 0 {
      ReceivesNothing(sequence, slots, keep);
    } else {
      ReceivesOutput(sequence, ssrc, slots, keep, k - 1);
      OneSlotMore(sequence, ssrc, slots, keep, k - 1);
      var kept := Kept(slots, keep, k - 1);
      if keep[k - 1] {
        ReceiveOneMore(kept, PacketBytes(slots[k - 1].header, Payload(slots[k - 1])));
        ReceiveKept(sequence, ssrc, slots, keep, k - 1);
      } else {
        LostChangesNothing(sequence, slots, keep, k - 1);
        assert kept + [] == kept;
      }
    }
  }

  lemma ReceivesNothing(sequence: uint16, slots: seq<Slot>, keep: seq<bool>)
    requires |slots| == |keep| && AllSound(slots)
    ensures ReceiveAll(Kept(slots, keep, 0)) == (StateAt(sequence, slots, keep, 0), Output(slots, keep, 0))
  {}

  lemma LostChangesNothing(sequence: uint16, slots: seq<Slot>, keep: seq<bool>, k: nat)
    requires k < |slots| == |keep| && AllSound(slots) && !keep[k]
    ensures StateAt(sequence, slots, keep, k + 1) == StateAt(sequence, slots, keep, k)
    ensures Output(slots, keep, k + 1) == Output(slots, keep, k)
  {
    hide SequenceAfter, IsLast, JoinedLength;
  }

  lemma OneSlotMore(sequence: uint16, ssrc: uint32, slots: seq<Slot>, keep: seq<bool>, k: nat)
    requires k < |slots| == |keep| && WellBuilt(sequence, ssrc, slots) && AllSound(slots) && AllInRange(slots)
    ensures var slot := slots[k];
            && SlotOk(sequence, ssrc, slots, k) && Sound(slot) && TypeInRange(slot.nal)
            && Kept(slots, keep, k + 1) == Kept(slots, keep, k)
                 + (if keep[k] then [PacketBytes(slot.header, Payload(slot))] else [])
            && Output(slots, keep, k + 1) == Output(slots, keep, k) + OutputAt(slots, keep, k)
  {
    hide SlotOk, OutputAt, Payload, PacketBytes;
  }

  // ----- Which output was sent -----

  // A whole chain holds its NAL up to its last fragment; of the NAL of any other chain, a
  // fragment is missing.
  ghost predicate ChainHolds(slots: seq<Slot>, keep: seq<bool>, k: nat)
    requires k <= |slots| == |keep| && AllSound(slots) && Chained(slots)
  {
    var c := ChainAt(slots, keep, k);
    && (c.Chain? ==> c.last < k && (c.whole <==> KeptSoFar(slots, keep, c.last)))
    && (c.Chain? && c.whole ==> ChainData(slots, keep, k) == slots[c.last].nal[..JoinedLength(slots[c.last])])
    && (k > 0 && !IsLast(slots[k - 1]) && KeptSoFar(slots, keep, k - 1) ==> c == Chain(k - 1, true))
  }

  // Fragment j > 0 is kept so far exactly if it is kept and the one before is kept so far.
  lemma KeptSoFarStep(sequence: uint16, ssrc: uint32, slots: seq<Slot>, keep: seq<bool>, k: nat)
    requires k < |slots| == |keep| && SlotOk(sequence, ssrc, slots, k) && AllSound(slots) && Chained(slots)
    ensures slots[k].j == 0 ==> (KeptSoFar(slots, keep, k) <==> keep[k])
    ensures slots[k].j > 0 ==>
              && k > 0 && slots[k - 1] == slots[k].(j := slots[k].j - 1, header := slots[k - 1].header,
                  taken := slots[k - 1].taken)
              && !IsLast(slots[k - 1])
              && (KeptSoFar(slots, keep, k) <==> keep[k] && KeptSoFar(slots, keep, k - 1))
  {
    hide SequenceAfter, Fragments;
  }

  lemma ChainStep(sequence: uint16, ssrc: uint32, slots: seq<Slot>, keep: seq<bool>, k: nat)
    requires k < |slots| == |keep| && SlotOk(sequence, ssrc, slots, k) && AllSound(slots) && Chained(slots)
    requires ChainHolds(slots, keep, k)
    ensures ChainHolds(slots, keep, k + 1)
  {
    hide SlotOk, AllSound, Chained, IsLast, JoinedLength, KeptSoFar, Sound, Payload;
    KeptSoFarStep(sequence, ssrc, slots, keep, k);
    SoundAt(slots, k);
    JoinedParts(slots[k]);
    NotKeptSoFar(slots, keep, k);
    if !keep[k] || IsLast(slots[k]) || slots[k].j == 0 {
    } else {
      SameLength(slots[k - 1], slots[k].(j := slots[k].j - 1));
      assert KeptSoFar(slots, keep, k) <==> KeptSoFar(slots, keep, k - 1);
    }
  }

  lemma SoundAt(slots: seq<Slot>, k: nat)
    requires AllSound(slots) && Chained(slots) && k < |slots|
    ensures Sound(slots[k]) && slots[k].j <= k && (k > 0 ==> Sound(slots[k - 1]))
  {}

  lemma SameLength(a: Slot, b: Slot)
    requires Sound(a) && Sound(b) && a.nal == b.nal && a.j == b.j
    ensures JoinedLength(a) == JoinedLength(b) && IsLast(a) == IsLast(b)
  {}

  lemma NotKeptSoFar(slots: seq<Slot>, keep: seq<bool>, k: nat)
    requires k < |slots| == |keep| && slots[k].j <= k
    ensures KeptSoFar(slots, keep, k) ==> keep[k]
  {}

  lemma {:induction false} ChainAlwaysHolds(sequence: uint16, ssrc: uint32, slots: seq<Slot>, keep: seq<bool>, k: nat)
    requires k <= |slots| == |keep| && WellBuilt(sequence, ssrc, slots) && AllSound(slots) && Chained(slots)
    ensures ChainHolds(slots, keep, k)
  {
    hide AllSound, Chained, IsLast, JoinedLength, KeptSoFar, Sound, SlotOk;
    if k > 0 {
      ChainAlwaysHolds(sequence, ssrc, slots, keep, k - 1);
      ChainStep(sequence, ssrc, slots, keep, k - 1);
    }
  }

  // At the final fragment i, the receiver takes fragments for one NAL that are not all the
  // fragments of one.
  predicate Spliced(slots: seq<Slot>, keep: seq<bool>, i: nat)
    requires i < |slots| == |keep|
  {
    var c := ChainAt(slots, keep, i);
    keep[i] && slots[i].j > 0 && IsLast(slots[i]) && Continues(c, i) && !(c.whole && c.last + 1 == i)
  }

  predicate NoSplice(slots: seq<Slot>, keep: seq<bool>)
    requires |slots| == |keep|
  {
    forall i :: 0 <= i < |slots| ==> !Spliced(slots, keep, i)
  }

  // The output at a packet: a NAL that is complete, or a splice, or nothing.
  lemma OutputIs(sequence: uint16, ssrc: uint32, slots: seq<Slot>, keep: seq<bool>, i: nat)
    requires i < |slots| == |keep| && SlotOk(sequence, ssrc, slots, i) && AllSound(slots) && Chained(slots)
    requires ChainHolds(slots, keep, i)
    ensures var out := OutputAt(slots, keep, i);
            if IsLast(slots[i]) && KeptSoFar(slots, keep, i) then out == [slots[i].nal] && !Spliced(slots, keep, i)
            else |out| == if Spliced(slots, keep, i) then 1 else 0
  {
    hide SlotOk, AllSound, Chained, JoinedLength, KeptSoFar, Sound, IsLast;
    KeptSoFarStep(sequence, ssrc, slots, keep, i);
    SoundAt(slots, i);
    JoinedParts(slots[i]);
    if slots[i].j > 0 {
      SameLength(slots[i - 1], slots[i].(j := slots[i].j - 1));
      assert slots[i].nal[..|slots[i].nal|] == slots[i].nal;
    }
    NotKeptSoFar(slots, keep, i);
  }

  function SpliceCount(slots: seq<Slot>, keep: seq<bool>, k: nat): nat
    requires k <= |slots| == |keep|
  {
    if k == 0 then 0 else SpliceCount(slots, keep, k - 1) + if Spliced(slots, keep, k - 1) then 1 else 0
  }

  // Besides the complete NALs, the receiver outputs one for every splice, and no other.
  lemma {:induction false} OutputCounts(sequence: uint16, ssrc: uint32, slots: seq<Slot>, keep: seq<bool>, k: nat)
    requires k <= |slots| == |keep| && WellBuilt(sequence, ssrc, slots) && AllSound(slots) && Chained(slots)
    ensures |Output(slots, keep, k)| == |Complete(slots, keep, k)| + SpliceCount(slots, keep, k)
    ensures SpliceCount(slots, keep, k) == 0 ==> Output(slots, keep, k) == Complete(slots, keep, k)
  {
    hide AllSound, Chained, IsLast, KeptSoFar, Spliced, OutputAt, SlotOk, ChainHolds;
    if k > 0 {
      OutputCounts(sequence, ssrc, slots, keep, k - 1);
      assert SlotOk(sequence, ssrc, slots, k - 1);
      ChainAlwaysHolds(sequence, ssrc, slots, keep, k - 1);
      SoundAt(slots, k - 1);
      OutputIs(sequence, ssrc, slots, keep, k - 1);
    }
  }

  lemma {:induction false} CountsSplices(slots: seq<Slot>, keep: seq<bool>, k: nat)
    requires k <= |slots| == |keep|
    ensures SpliceCount(slots, keep, k) == 0 <==> forall i :: 0 <= i < k ==> !Spliced(slots, keep, i)
  {
    hide Spliced;
    if k > 0 {
      CountsSplices(slots, keep, k - 1);
    }
  }

  // The receiver outputs exactly the complete NALs if and only if there is no splice.
  lemma OutputIsCompleteIff(sequence: uint16, ssrc: uint32, slots: seq<Slot>, keep: seq<bool>)
    requires |slots| == |keep| && WellBuilt(sequence, ssrc, slots) && AllSound(slots) && Chained(slots)
              && AllInRange(slots)
    ensures ReceiveAll(Kept(slots, keep, |keep|)).1 == Complete(slots, keep, |keep|) <==> NoSplice(slots, keep)
  {
    hide Output, Complete, SpliceCount, WellBuilt, AllSound, Chained, AllInRange, Spliced, ReceiveAll, Kept, StateAt;
    ReceivesOutput(sequence, ssrc, slots, keep, |keep|);
    OutputCounts(sequence, ssrc, slots, keep, |keep|);
    CountsSplices(slots, keep, |keep|);
  }

  // There is none if no loss in the middle of a NAL is a multiple of 65536 packets long; so in
  // particular if no 65536 packets in a row are lost.
  lemma NoBurstNoSplice(slots: seq<Slot>, keep: seq<bool>)
    requires |slots| == |keep| && NoLongBurst(slots, keep)
    ensures NoSplice(slots, keep)
  {
    hide IsLast;
    forall i | 0 <= i < |slots| ensures !Spliced(slots, keep, i) {
      ChainIsWhole(slots, keep, i);
      ChainIsBefore(slots, keep, i);
    }
  }

  lemma {:induction false} ChainIsWhole(slots: seq<Slot>, keep: seq<bool>, k: nat)
    requires k <= |slots| == |keep| && NoLongBurst(slots, keep)
    ensures ChainAt(slots, keep, k).Chain? ==> ChainAt(slots, keep, k).whole
  {
    hide IsLast;
    if k > 0 {
      ChainIsWhole(slots, keep, k - 1);
      ChainIsBefore(slots, keep, k - 1);
    }
  }

  // A loss of any positive multiple of 65536 packets, from the middle of a NAL whose fragments
  // were kept so far to the final fragment of a NAL: the receiver joins that fragment to the
  // beginning of the other NAL.
  lemma LongBurstSplices(sequence: uint16, ssrc: uint32, slots: seq<Slot>, keep: seq<bool>, l: nat, k: nat)
    requires l < k < |slots| == |keep| && WellBuilt(sequence, ssrc, slots) && AllSound(slots) && Chained(slots)
    requires AllInRange(slots) && !IsLast(slots[l]) && KeptSoFar(slots, keep, l)
    requires keep[k] && slots[k].j > 0 && IsLast(slots[k]) && |Payload(slots[k])| > 2
    requires forall i :: l < i < k ==> !keep[i]
    requires k - l > 1 && (k - l - 1) % 0x1_0000 == 0
    ensures Spliced(slots, keep, k)
    ensures ReceiveAll(Kept(slots, keep, k + 1)).1 ==
              ReceiveAll(Kept(slots, keep, l + 1)).1
              + [slots[l].nal[..JoinedLength(slots[l])] + Payload(slots[k])[2..]]
  {
    hide WellBuilt, AllSound, Chained, AllInRange, ReceiveAll, Kept, StateAt, IsLast, Payload, JoinedLength, KeptSoFar;
    ReceivesOutput(sequence, ssrc, slots, keep, k + 1);
    ReceivesOutput(sequence, ssrc, slots, keep, l + 1);
    ChainAlwaysHolds(sequence, ssrc, slots, keep, l + 1);
    NothingKept(slots, keep, l + 1, k);
  }

  lemma {:induction false} NothingKept(slots: seq<Slot>, keep: seq<bool>, from: nat, k: nat)
    requires from <= k <= |slots| == |keep| && AllSound(slots) && forall i :: from <= i < k ==> !keep[i]
    ensures ChainAt(slots, keep, k) == ChainAt(slots, keep, from)
    ensures ChainData(slots, keep, k) == ChainData(slots, keep, from)
    ensures Output(slots, keep, k) == Output(slots, keep, from)
    decreases k
  {
    hide IsLast, Payload, JoinedLength, AllSound;
    if from < k {
      NothingKept(slots, keep, from, k - 1);
      assert OutputAt(slots, keep, k - 1) == [];
    }
  }

  // ----- In terms of the calls on the sender -----

  function Nals(actions: seq<Action>): seq<Bytes> {
    if actions == [] then []
    else
      var last := actions[|actions| - 1];
      Nals(actions[..|actions| - 1]) + if last.Send? then [last.nal] else []
  }

  predicate Succeeded(a: Action) {
    a.Send? && a.taken == |Fragments(a.nal, DEFAULT_MTU)|
  }

  // The NALs for which send_nal returned true.
  function SucceededNals(actions: seq<Action>): seq<Bytes> {
    if actions == [] then []
    else
      var last := actions[|actions| - 1];
      SucceededNals(actions[..|actions| - 1]) + if Succeeded(last) then [last.nal] else []
  }

  function SlotsIn(start: Stream, actions: seq<Action>): seq<Slot> {
    Replay(start, actions).slots
  }

  lemma SlotsGrow(start: Stream, actions: seq<Action>)
    requires actions != []
    ensures var before := SlotsIn(start, actions[..|actions| - 1]);
            var last := actions[|actions| - 1];
            SlotsIn(start, actions) ==
            if last.Send? then SlotsAfter(Replay(start, actions[..|actions| - 1]), last, BuiltCount(last)) else before
  {}

  predicate AllFrom(keep: seq<bool>, n: nat) {
    forall i :: n <= i < |keep| ==> keep[i]
  }

  // The NALs given to the sender all of whose fragments were built, and kept.
  function Arrived(start: Stream, actions: seq<Action>, keep: seq<bool>): seq<Bytes>
    requires |keep| == |SlotsIn(start, actions)|
  {
    if actions == [] then []
    else
      var before := actions[..|actions| - 1];
      var last := actions[|actions| - 1];
      var n := |SlotsIn(start, before)|;
      Arrived(start, before, keep[..n])
      + if last.Send? && |keep| == n + |Fragments(last.nal, DEFAULT_MTU)| && AllFrom(keep, n) then [last.nal] else []
  }

  lemma {:induction false} CompleteDependsOnPrefix(a: seq<Slot>, b: seq<Slot>, ka: seq<bool>, kb: seq<bool>, k: nat)
    requires k <= |a| == |ka| && k <= |b| == |kb| && Chained(a) && Chained(b)
    requires a[..k] == b[..k] && ka[..k] == kb[..k]
    ensures Complete(a, ka, k) == Complete(b, kb, k)
  {
    if k > 0 {
      assert a[..k - 1] == a[..k][..k - 1] && b[..k - 1] == b[..k][..k - 1];
      assert ka[..k - 1] == ka[..k][..k - 1] && kb[..k - 1] == kb[..k][..k - 1];
      CompleteDependsOnPrefix(a, b, ka, kb, k - 1);
      assert a[k - 1] == a[..k][k - 1] && b[k - 1] == b[..k][k - 1];
      assert forall i :: 0 <= i < k ==> ka[i] == ka[..k][i] && kb[i] == kb[..k][i];
      hide IsLast;
    }
  }

  // The i-th packet built for a NAL completes it exactly when it is the last fragment and all
  // of them are kept.
  lemma GroupSlot(s: Stream, a: Action, keep: seq<bool>, i: nat)
    requires Legal(a) && a.Send? && i < BuiltCount(a)
    requires var slots := SlotsAfter(s, a, BuiltCount(a)); |keep| == |slots| && Chained(slots)
    ensures var slots := SlotsAfter(s, a, BuiltCount(a));
            var k := |s.slots| + i;
            && slots[k].nal == a.nal && slots[k].j == i <= k
            && (IsLast(slots[k]) <==> i + 1 == |Fragments(a.nal, DEFAULT_MTU)|)
            && (KeptSoFar(slots, keep, k) <==> KeptBetween(keep, |s.slots|, k + 1))
  {
    assert SlotsAfter(s, a, BuiltCount(a))[|s.slots| + i] == SlotOf(s, a, i);
    hide Fragments, SequenceAfter;
  }

  predicate KeptBetween(keep: seq<bool>, from: nat, to: nat)
    requires to <= |keep|
  {
    forall m :: from <= m < to ==> keep[m]
  }

  lemma CompleteUnfold(slots: seq<Slot>, keep: seq<bool>, k: nat)
    requires k < |slots| == |keep| && Chained(slots) && slots[k].j <= k
    ensures Complete(slots, keep, k + 1) == Complete(slots, keep, k)
              + if IsLast(slots[k]) && KeptSoFar(slots, keep, k) then [slots[k].nal] else []
  {}

  lemma {:induction false} CompleteInGroup(s: Stream, a: Action, keep: seq<bool>, i: nat)
    requires Legal(a) && a.Send? && i <= BuiltCount(a)
    requires var slots := SlotsAfter(s, a, BuiltCount(a)); |keep| == |slots| && Chained(slots)
    requires |SlotsAfter(s, a, BuiltCount(a))| == |s.slots| + BuiltCount(a)
    ensures var slots := SlotsAfter(s, a, BuiltCount(a));
            var n := |s.slots|;
            Complete(slots, keep, n + i) ==
            Complete(slots, keep, n)
            + if i == |Fragments(a.nal, DEFAULT_MTU)| && KeptBetween(keep, n, n + i) then [a.nal] else []
  {
    BuiltWithin(a);
    hide *;
    var slots := SlotsAfter(s, a, BuiltCount(a));
    if i > 0 {
      CompleteInGroup(s, a, keep, i - 1);
      GroupSlot(s, a, keep, i - 1);
      CompleteUnfold(slots, keep, |s.slots| + i - 1);
    }
    assert Complete(slots, keep, |s.slots|) + [] == Complete(slots, keep, |s.slots|);
  }

  lemma BuiltWithin(a: Action)
    requires Legal(a) && a.Send?
    ensures 1 <= BuiltCount(a) <= |Fragments(a.nal, DEFAULT_MTU)|
  {
    FragmentsNotEmpty(a.nal);
  }

  lemma FragmentsNotEmpty(nal: Bytes)
    requires nal != []
    ensures Fragments(nal, DEFAULT_MTU) != []
  {
    if |nal| > DEFAULT_MTU {
      CutIff(|nal|, DEFAULT_MTU, 0);
    }
  }

  lemma PrefixOf(s: Stream, a: Action)
    requires a.Send?
    ensures var slots := SlotsAfter(s, a, BuiltCount(a));
            && |slots| == |s.slots| + BuiltCount(a) && slots[..|s.slots|] == s.slots
            && (Chained(slots) ==> Chained(s.slots))
  {
    var slots := SlotsAfter(s, a, BuiltCount(a));
    assert forall k :: 0 <= k < |s.slots| ==> s.slots[k] == slots[k];
    hide SlotOf, BuiltCount;
  }

  // What one more send adds to the NALs that arrive in full.
  lemma SendAdds(s: Stream, a: Action, keep: seq<bool>)
    requires Legal(a) && a.Send?
    requires var slots := SlotsAfter(s, a, BuiltCount(a)); |keep| == |slots| && Chained(slots)
    ensures var n := |s.slots|;
            && n <= |keep| && Chained(s.slots)
            && Complete(SlotsAfter(s, a, BuiltCount(a)), keep, |keep|) ==
               Complete(s.slots, keep[..n], n)
               + if |keep| == n + |Fragments(a.nal, DEFAULT_MTU)| && AllFrom(keep, n) then [a.nal] else []
  {
    var n := |s.slots|;
    PrefixOf(s, a);
    BuiltWithin(a);
    AllKeptBetween(keep, n);
    hide *;
    var slots := SlotsAfter(s, a, BuiltCount(a));
    assert keep[..n][..n] == keep[..n] && s.slots[..n] == s.slots;
    CompleteDependsOnPrefix(slots, s.slots, keep, keep[..n], n);
    CompleteInGroup(s, a, keep, BuiltCount(a));
  }

  lemma AllKeptBetween(keep: seq<bool>, n: nat)
    ensures AllFrom(keep, n) == KeptBetween(keep, n, |keep|)
  {}

  // Counted by packets or by calls, the NALs that arrive in full are the same.
  lemma {:induction false} CompleteIsArrived(start: Stream, actions: seq<Action>, keep: seq<bool>)
    requires start.slots == [] && AllLegal(actions)
    requires |keep| == |SlotsIn(start, actions)| && Chained(SlotsIn(start, actions))
    ensures Complete(SlotsIn(start, actions), keep, |keep|) == Arrived(start, actions, keep)
  {
    if actions != [] {
      var before := actions[..|actions| - 1];
      var last := actions[|actions| - 1];
      assert Legal(last) && AllLegal(before);
      SlotsGrow(start, actions);
      ArrivedUnfold(start, actions, keep);
      hide *;
      if last.Send? {
        SendAdds(Replay(start, before), last, keep);
        SlotsInIs(start, before);
      } else {
        assert keep[..|keep|] == keep;
      }
      CompleteIsArrived(start, before, keep[..|SlotsIn(start, before)|]);
    }
  }

  lemma SlotsInIs(start: Stream, actions: seq<Action>)
    ensures SlotsIn(start, actions) == Replay(start, actions).slots
  {}

  lemma ArrivedUnfold(start: Stream, actions: seq<Action>, keep: seq<bool>)
    requires actions != [] && |keep| == |SlotsIn(start, actions)|
    ensures var before := actions[..|actions| - 1];
            var last := actions[|actions| - 1];
            var n := |SlotsIn(start, before)|;
            && n <= |keep|
            && Arrived(start, actions, keep) == Arrived(start, before, keep[..n])
               + if last.Send? && |keep| == n + |Fragments(last.nal, DEFAULT_MTU)| && AllFrom(keep, n)
                 then [last.nal] else []
  {
    SlotsGrow(start, actions);
  }

  // ----- The results -----

  predicate AllTypesInRange(actions: seq<Action>) {
    forall i :: 0 <= i < |actions| && actions[i].Send? ==> TypeInRange(actions[i].nal)
  }

  lemma {:induction false} SlotsInRange(start: Stream, actions: seq<Action>)
    requires start.slots == [] && AllTypesInRange(actions)
    ensures AllInRange(SlotsIn(start, actions))
  {
    if actions != [] {
      SlotsInRange(start, actions[..|actions| - 1]);
      SlotsGrow(start, actions);
      hide Fragments, SequenceAfter, Replay;
    }
  }

  // Under every loss pattern and every pattern of failed sends, the receiver outputs exactly
  // the NALs all of whose fragments were built and arrived, byte for byte and in order, if and
  // only if the losses splice no NAL together.
  lemma ReceivesWhatArrived(sequence: uint16, ssrc: uint32, actions: seq<Action>, keep: seq<bool>)
    requires AllLegal(actions) && AllTypesInRange(actions)
    requires |keep| == |SlotsIn(Start(sequence, ssrc), actions)|
    ensures var start := Start(sequence, ssrc);
            var slots := SlotsIn(start, actions);
            && AllSound(slots)
            && (ReceiveAll(Kept(slots, keep, |keep|)).1 == Arrived(start, actions, keep) <==> NoSplice(slots, keep))
            && (NoLongBurst(slots, keep) ==> NoSplice(slots, keep))
  {
    var start := Start(sequence, ssrc);
    var slots := SlotsIn(start, actions);
    ReplayIsWellBuilt(sequence, ssrc, actions);
    SlotsInIs(start, actions);
    hide *;
    WellBuiltBasics(sequence, ssrc, slots);
    StartHasNoSlots(sequence, ssrc);
    SlotsInRange(start, actions);
    OutputIsCompleteIff(sequence, ssrc, slots, keep);
    CompleteIsArrived(start, actions, keep);
    if NoLongBurst(slots, keep) {
      NoBurstNoSplice(slots, keep);
    }
  }

  lemma StartHasNoSlots(sequence: uint16, ssrc: uint32)
    ensures Start(sequence, ssrc).slots == []
  {}

  // a is b with some elements left out.
  predicate Subsequence<T(==)>(a: seq<T>, b: seq<T>)
    decreases |b|
  {
    if a == [] then true
    else if b == [] then false
    else
      var (a', b') := (a[..|a| - 1], b[..|b| - 1]);
      (a[|a| - 1] == b[|b| - 1] && Subsequence(a', b')) || Subsequence(a, b')
  }

  lemma SubsequenceAppend<T>(a: seq<T>, b: seq<T>, x: T)
    requires Subsequence(a, b)
    ensures Subsequence(a, b + [x]) && Subsequence(a + [x], b + [x])
  {
    assert (b + [x])[..|b|] == b && (a + [x])[..|a|] == a;
  }

  // So nothing but sent NALs comes out, in the order in which they were given to send_nal.
  lemma {:induction false} ArrivedIsSubsequence(start: Stream, actions: seq<Action>, keep: seq<bool>)
    requires |keep| == |SlotsIn(start, actions)|
    ensures Subsequence(Arrived(start, actions, keep), Nals(actions))
  {
    if actions != [] {
      var before := actions[..|actions| - 1];
      var last := actions[|actions| - 1];
      ArrivedUnfold(start, actions, keep);
      var kept := keep[..|SlotsIn(start, before)|];
      ArrivedIsSubsequence(start, before, kept);
      if last.Send? {
        SubsequenceAppend(Arrived(start, before, kept), Nals(before), last.nal);
      }
      hide Arrived, SlotsIn, Fragments, AllFrom, Subsequence;
      assert Arrived(start, before, kept) + [] == Arrived(start, before, kept);
      assert Nals(before) + [] == Nals(before);
    }
  }

  // ----- Without loss on the network -----

  function Taken(slots: seq<Slot>): (r: seq<bool>)
    ensures |r| == |slots|
  {
    seq(|slots|, k requires 0 <= k < |slots| => slots[k].taken)
  }

  lemma {:induction false} KeptTakenIsWire(slots: seq<Slot>, k: nat)
    requires AllSound(slots) && k <= |slots|
    ensures AllSound(slots[..k]) && Kept(slots, Taken(slots), k) == Wire(slots[..k])
  {
    if k > 0 {
      KeptTakenIsWire(slots, k - 1);
      assert slots[..k][..k - 1] == slots[..k - 1];
      hide PacketBytes, Payload, Sound;
    }
  }

  // A send stops at its first failure, so no fragment is taken behind one that was not.
  lemma TakenHasNoBurst(sequence: uint16, ssrc: uint32, slots: seq<Slot>)
    requires WellBuilt(sequence, ssrc, slots)
    ensures NoLongBurst(slots, Taken(slots))
  {
    var keep := Taken(slots);
    forall k: nat | k < |keep| && keep[k] && slots[k].j > 0 && LastKept(keep, k) >= 0
      ensures LastKept(keep, k) == k - 1
    {
      assert SlotOk(sequence, ssrc, slots, k);
      assert keep[k - 1];
    }
  }

  lemma {:induction false} TakenArrive(start: Stream, actions: seq<Action>)
    requires start.slots == [] && AllLegal(actions)
    ensures Arrived(start, actions, Taken(SlotsIn(start, actions))) == SucceededNals(actions)
  {
    if actions != [] {
      var before := actions[..|actions| - 1];
      var last := actions[|actions| - 1];
      var keep := Taken(SlotsIn(start, actions));
      assert Legal(last) && AllLegal(before);
      TakenArrive(start, before);
      ArrivedUnfold(start, actions, keep);
      SlotsGrow(start, actions);
      SlotsInIs(start, before);
      hide Arrived, SlotsIn, Fragments, Replay, AllLegal;
      if last.Send? {
        TakenInGroup(Replay(start, before), last);
      } else {
        assert keep[..|keep|] == keep;
      }
    }
  }

  lemma TakenInGroup(s: Stream, a: Action)
    requires Legal(a) && a.Send?
    ensures var keep := Taken(SlotsAfter(s, a, BuiltCount(a)));
            var n := |s.slots|;
            && n <= |keep| && keep[..n] == Taken(s.slots)
            && (Succeeded(a) <==> |keep| == n + |Fragments(a.nal, DEFAULT_MTU)| && AllFrom(keep, n))
  {
    var slots := SlotsAfter(s, a, BuiltCount(a));
    var keep := Taken(slots);
    var n := |s.slots|;
    hide Fragments, SequenceAfter;
    BuiltWithin(a);
    assert forall j :: n <= j < n + BuiltCount(a) ==> keep[j] == (j - n < a.taken);
    hide SlotsAfter, Taken;
    if !Succeeded(a) {
      assert !keep[n + a.taken];
    }
  }

  // With no loss on the network, the receiver outputs exactly the NALs for which send_nal
  // returned true; with no failed send either, all of them.
  lemma WireDelivers(sequence: uint16, ssrc: uint32, actions: seq<Action>)
    requires AllLegal(actions) && AllTypesInRange(actions)
    ensures var slots := SlotsIn(Start(sequence, ssrc), actions);
            AllSound(slots) && ReceiveAll(Wire(slots)).1 == SucceededNals(actions)
    ensures (forall i :: 0 <= i < |actions| && actions[i].Send? ==> Succeeded(actions[i])) ==>
              SucceededNals(actions) == Nals(actions)
  {
    var start := Start(sequence, ssrc);
    var slots := SlotsIn(start, actions);
    ReplayIsWellBuilt(sequence, ssrc, actions);
    SlotsInIs(start, actions);
    StartHasNoSlots(sequence, ssrc);
    if forall i :: 0 <= i < |actions| && actions[i].Send? ==> Succeeded(actions[i]) {
      AllSucceeded(actions);
    }
    hide *;
    WellBuiltBasics(sequence, ssrc, slots);
    TakenHasNoBurst(sequence, ssrc, slots);
    ReceivesWhatArrived(sequence, ssrc, actions, Taken(slots));
    TakenArrive(start, actions);
    KeptTakenIsWire(slots, |slots|);
    assert slots[..|slots|] == slots;
  }

  lemma {:induction false} AllSucceeded(actions: seq<Action>)
    requires forall i :: 0 <= i < |actions| && actions[i].Send? ==> Succeeded(actions[i])
    ensures SucceededNals(actions) == Nals(actions)
  {
    if actions != [] {
      AllSucceeded(actions[..|actions| - 1]);
      hide Fragments;
    }
  }
}
