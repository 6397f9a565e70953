// The RTP sender (src/rtp/streamer.cpp): its sequence, timestamp and marker over any run of
// NALs, with sends that may fail.
module Streamers {
  import opened Prelude
  import opened Fua
  import opened Packetizer

  const PAYLOAD_TYPE: byte := 96

  // ----- What a run does, as a function of its history -----

  // One call on the streamer. A NAL of which the socket took fewer packets than it has
  // fragments was given up at the first packet that failed.
  datatype Action = Send(nal: Bytes, taken: nat) | Advance(increment: uint32)

  predicate Legal(a: Action) {
    a.Send? ==> a.nal != [] && a.taken <= |Fragments(a.nal, DEFAULT_MTU)|
  }

  predicate AllLegal(actions: seq<Action>) {
    forall i :: 0 <= i < |actions| ==> Legal(actions[i])
  }

  // One packet that was built: fragment j of a NAL, its header, and whether the socket took it.
  datatype Slot = Slot(nal: Bytes, j: nat, header: Header, taken: bool)

  predicate Sound(slot: Slot) {
    slot.nal != [] && slot.j < |Fragments(slot.nal, DEFAULT_MTU)|
  }

  function Payload(slot: Slot): Bytes
    requires Sound(slot)
  {
    Fragments(slot.nal, DEFAULT_MTU)[slot.j]
  }

  predicate IsLast(slot: Slot) {
    slot.j + 1 == |Fragments(slot.nal, DEFAULT_MTU)|
  }

  // Packets built for a NAL: those taken and, if one failed, that one.
  function BuiltCount(a: Action): nat
    requires a.Send?
  {
    Min(a.taken + 1, |Fragments(a.nal, DEFAULT_MTU)|)
  }

  datatype Stream = Stream(sequence: uint16, timestamp: uint32, ssrc: uint32, slots: seq<Slot>)

  // n steps of a sequence number, which wraps at 2^16.
  function SequenceAfter(sequence: uint16, n: nat): uint16 {
    (sequence + n) % 0x1_0000
  }

  function SlotOf(s: Stream, a: Action, j: nat): Slot
    requires a.Send?
  {
    Slot(a.nal, j,
         Header(PAYLOAD_TYPE, SequenceAfter(s.sequence, j), s.timestamp, s.ssrc,
                j + 1 == |Fragments(a.nal, DEFAULT_MTU)|),
         j < a.taken)
  }

  function SlotsOf(s: Stream, a: Action, n: nat): seq<Slot>
    requires a.Send?
  {
    seq(n, j requires 0 <= j < n => SlotOf(s, a, j))
  }

  // The slots of the stream after n packets of one more NAL.
  function SlotsAfter(s: Stream, a: Action, n: nat): seq<Slot>
    requires a.Send?
  {
    s.slots + SlotsOf(s, a, n)
  }

  function Step(s: Stream, a: Action): Stream {
    match a
    case Send(_, _) =>
      s.(sequence := SequenceAfter(s.sequence, BuiltCount(a)), slots := SlotsAfter(s, a, BuiltCount(a)))
    case Advance(increment) =>
      s.(timestamp := (s.timestamp + increment) % 0x1_0000_0000)
  }

  function Replay(s: Stream, actions: seq<Action>): Stream {
    if actions == [] then s
    else Step(Replay(s, actions[..|actions| - 1]), actions[|actions| - 1])
  }

  predicate AllSound(slots: seq<Slot>) {
    forall i :: 0 <= i < |slots| ==> Sound(slots[i])
  }

  // The datagrams that the socket took, in order.
  function Wire(slots: seq<Slot>): seq<Bytes>
    requires AllSound(slots)
  {
    if slots == [] then []
    else
      var last := slots[|slots| - 1];
      Wire(slots[..|slots| - 1]) + if last.taken then [PacketBytes(last.header, Payload(last))] else []
  }

  // What the socket was offered, and whether it took it.
  datatype Offer = Offer(packet: Bytes, taken: bool)

  function OfferOf(slot: Slot): Offer
    requires Sound(slot)
  {
    Offer(PacketBytes(slot.header, Payload(slot)), slot.taken)
  }

  function Offers(slots: seq<Slot>): seq<Offer>
    requires AllSound(slots)
  {
    seq(|slots|, i requires 0 <= i < |slots| => OfferOf(slots[i]))
  }

  function TakenOf(offers: seq<Offer>): seq<Bytes> {
    if offers == [] then []
    else
      var last := offers[|offers| - 1];
      TakenOf(offers[..|offers| - 1]) + if last.taken then [last.packet] else []
  }

  lemma OffersAppend(slots: seq<Slot>, slot: Slot)
    requires AllSound(slots) && Sound(slot)
    ensures Offers(slots + [slot]) == Offers(slots) + [OfferOf(slot)]
  {
    hide OfferOf;
  }

  lemma TakenOfAppend(offers: seq<Offer>, offer: Offer)
    ensures TakenOf(offers + [offer]) == TakenOf(offers) + if offer.taken then [offer.packet] else []
  {
    assert (offers + [offer])[..|offers|] == offers;
  }

  // The wire is what was taken of the offers.
  lemma {:induction false} WireIsTaken(slots: seq<Slot>)
    requires AllSound(slots)
    ensures Wire(slots) == TakenOf(Offers(slots))
  {
    hide PacketBytes, Payload;
    if slots != [] {
      var n := |slots| - 1;
      WireIsTaken(slots[..n]);
      OffersAppend(slots[..n], slots[n]);
      assert slots[..n] + [slots[n]] == slots;
      TakenOfAppend(Offers(slots[..n]), OfferOf(slots[n]));
    }
  }

  lemma ReplayAppend(s: Stream, actions: seq<Action>, a: Action)
    ensures Replay(s, actions + [a]) == Step(Replay(s, actions), a)
  {
    assert (actions + [a])[..|actions|] == actions;
  }

  // One more packet of a NAL, taken or not, is one more slot.
  lemma SlotsAfterOneMore(s: Stream, nal: Bytes, i: nat, sent: bool)
    requires AllSound(s.slots) && nal != [] && i < |Fragments(nal, DEFAULT_MTU)|
    ensures var all := Send(nal, |Fragments(nal, DEFAULT_MTU)|);
            var a := if sent then all else Send(nal, i);
            && SlotsAfter(s, a, i + 1) == SlotsAfter(s, all, i) + [SlotOf(s, a, i)]
            && AllSound(SlotsAfter(s, all, i)) && Sound(SlotOf(s, a, i)) && SlotOf(s, a, i).taken == sent
  {
    hide Fragments, SequenceAfter;
  }

  lemma AllSoundAppend(slots: seq<Slot>, slot: Slot)
    requires AllSound(slots) && Sound(slot)
    ensures AllSound(slots + [slot])
  {}

  // The stream while a NAL is being sent: i packets of it built, all of them taken.
  function Partial(s: Stream, nal: Bytes, i: nat): Stream {
    s.(sequence := SequenceAfter(s.sequence, i),
       slots := SlotsAfter(s, Send(nal, |Fragments(nal, DEFAULT_MTU)|), i))
  }

  lemma PartialEnds(s: Stream, nal: Bytes)
    requires nal != []
    ensures var n := |Fragments(nal, DEFAULT_MTU)|;
            && Partial(s, nal, 0) == s && Partial(s, nal, n) == Step(s, Send(nal, n))
  {
    assert SlotsAfter(s, Send(nal, |Fragments(nal, DEFAULT_MTU)|), 0) == s.slots;
  }

  // Building one more packet, whether or not the socket takes it.
  lemma OneMore(s: Stream, nal: Bytes, i: nat, sent: bool)
    requires AllSound(s.slots) && nal != [] && i < |Fragments(nal, DEFAULT_MTU)|
    ensures var fragments := Fragments(nal, DEFAULT_MTU);
            var before := Partial(s, nal, i);
            var after := if sent then Partial(s, nal, i + 1) else Step(s, Send(nal, i));
            var header := Header(PAYLOAD_TYPE, before.sequence, s.timestamp, s.ssrc, i + 1 == |fragments|);
            && after.sequence == SequenceAfter(before.sequence, 1) && after.timestamp == s.timestamp
            && AllSound(before.slots) && AllSound(after.slots)
            && Offers(after.slots) == Offers(before.slots) + [Offer(PacketBytes(header, fragments[i]), sent)]
  {
    var fragments := Fragments(nal, DEFAULT_MTU);
    var a := Send(nal, if sent then |fragments| else i);
    SlotsAfterOneMore(s, nal, i, sent);
    SequenceStep(s.sequence, i);
    hide Fragments, SequenceAfter, SlotsAfter, SlotsOf, AllSound, Offers, PacketBytes;
    AllSoundAppend(SlotsAfter(s, Send(nal, |fragments|), i), SlotOf(s, a, i));
    OffersAppend(SlotsAfter(s, Send(nal, |fragments|), i), SlotOf(s, a, i));
  }

  lemma SequenceStep(x: uint16, i: nat)
    ensures SequenceAfter(SequenceAfter(x, i), 1) == SequenceAfter(x, i + 1)
  {}

  // ----- What a NAL puts on the wire -----

  // The packets of a NAL, by the counters at which its sending begins.
  function Packets(sequence: uint16, timestamp: uint32, ssrc: uint32, nal: Bytes): seq<Bytes>
    requires nal != []
  {
    var fragments := Fragments(nal, DEFAULT_MTU);
    var n := |fragments|;
    seq(n, j requires 0 <= j < n =>
      PacketBytes(Header(PAYLOAD_TYPE, SequenceAfter(sequence, j), timestamp, ssrc, j + 1 == n), fragments[j]))
  }

  // The packets are offered up to the first that is refused, if there is one.
  function OffersUpTo(packets: seq<Bytes>, taken: nat): seq<Offer>
    requires taken <= |packets|
  {
    seq(Min(taken + 1, |packets|), j requires 0 <= j < Min(taken + 1, |packets|) => Offer(packets[j], j < taken))
  }

  predicate NoRefusal(refusal: nat -> bool, from: nat, to: nat) {
    forall i :: from <= i < to ==> !refusal(i)
  }

  // Of n attempts in a row, the socket takes so many before it refuses one, or it takes all.
  predicate IsFirstRefusal(refusal: nat -> bool, from: nat, n: nat, taken: nat) {
    taken <= n && NoRefusal(refusal, from, from + taken) && (taken < n ==> refusal(from + taken))
  }

  lemma {:induction false} TakenUpTo(before: seq<Offer>, packets: seq<Bytes>, n: nat)
    requires n <= |packets|
    ensures TakenOf(before + OffersUpTo(packets, |packets|)[..n]) == TakenOf(before) + packets[..n]
  {
    var more := OffersUpTo(packets, |packets|);
    if n == 0 {
      assert before + more[..0] == before && TakenOf(before) + [] == TakenOf(before);
    } else {
      TakenUpTo(before, packets, n - 1);
      TakenOfAppend(before + more[..n - 1], more[n - 1]);
      assert before + more[..n] == before + more[..n - 1] + [more[n - 1]];
      assert packets[..n] == packets[..n - 1] + [packets[n - 1]];
    }
  }

  // What the slots of one more NAL say of the offers.
  lemma SendOffers(s: Stream, nal: Bytes, taken: nat)
    requires AllSound(s.slots) && Legal(Send(nal, taken))
    ensures var slots := Step(s, Send(nal, taken)).slots;
            && AllSound(slots)
            && Offers(slots) == Offers(s.slots) + OffersUpTo(Packets(s.sequence, s.timestamp, s.ssrc, nal), taken)
  {
    hide Fragments, SequenceAfter, PacketBytes;
    var a := Send(nal, taken);
    var slots := Step(s, a).slots;
    assert slots == SlotsAfter(s, a, BuiltCount(a));
    assert AllSound(slots);
  }

  // ----- The objects -----

  // A connected UDP socket. Which of the datagrams that it is offered it will refuse is not in
  // the program's hands; of those that it takes, each is taken whole.
  class UdpSocket {
    const refusal: nat -> bool
    var attempts: nat
    ghost var offers: seq<Offer>

    ghost predicate Valid()
      reads this
    {
      attempts == |offers| && forall i :: 0 <= i < |offers| ==> (offers[i].taken <==> !refusal(i))
    }

    constructor (refusal: nat -> bool)
      ensures Valid() && offers == [] && this.refusal == refusal
    {
      this.refusal := refusal;
      attempts, offers := 0, [];
    }

    method Send(packet: Bytes) returns (sent: int)
      requires Valid()
      modifies this
      ensures Valid() && offers == old(offers) + [Offer(packet, sent >= 0)]
      ensures sent == if refusal(|old(offers)|) then -1 else |packet|
    {
      sent := if refusal(attempts) then -1 else |packet|;
      attempts := attempts + 1;
      offers := offers + [Offer(packet, sent >= 0)];
    }
  }

  // Which offers are taken is the socket's doing.
  lemma TakenOfGrown(socket: UdpSocket, before: seq<Offer>, packets: seq<Bytes>, taken: nat)
    requires socket.Valid() && taken <= |packets| && socket.offers == before + OffersUpTo(packets, taken)
    ensures IsFirstRefusal(socket.refusal, |before|, |packets|, taken)
    ensures taken == |packets| <==> NoRefusal(socket.refusal, |before|, |before| + |packets|)
    ensures taken == |packets| ==> TakenOf(socket.offers) == TakenOf(before) + packets
  {
    var first, more := |before|, OffersUpTo(packets, taken);
    forall i | first <= i < first + |more| ensures socket.refusal(i) <==> i - first >= taken {
      assert socket.offers[i] == more[i - first];
    }
    TakenUpTo(before, packets, |packets|);
    assert taken == |packets| ==> more[..taken] == more && packets[..taken] == packets;
  }

  class Streamer {
    const socket: UdpSocket
    const ssrc: uint32
    var connected: bool
    var sequence: uint16
    var timestamp: uint32

    ghost const origin: Stream       // the state the random draws gave
    ghost var actions: seq<Action>   // every call that built packets or moved the clock
    ghost var stream: Stream         // what those calls amount to

    ghost predicate Valid()
      reads this, socket
    {
      && origin.slots == [] && origin.timestamp == 0 && origin.ssrc == ssrc
      && AllLegal(actions) && stream == Replay(origin, actions)
      && sequence == stream.sequence && timestamp == stream.timestamp && ssrc == stream.ssrc
      && AllSound(stream.slots) && socket.Valid() && socket.offers == Offers(stream.slots)
    }

    constructor (ssrc: uint32, sequence: uint16, refusal: nat -> bool)
      ensures Valid() && !connected && actions == [] && fresh(socket) && socket.refusal == refusal
      ensures origin == Stream(sequence, 0, ssrc, [])
    {
      socket := new UdpSocket(refusal);
      this.ssrc := ssrc;
      this.sequence := sequence;
      timestamp := 0;
      connected := false;
      origin := Stream(sequence, 0, ssrc, []);
      stream := Stream(sequence, 0, ssrc, []);
      actions := [];
    }

    // reachable tells whether connect_to accepts the address.
    method Connect(reachable: bool) returns (ok: bool)
      requires Valid()
      modifies this`connected
      ensures Valid() && ok == reachable && connected == (reachable || old(connected))
    {
      if !reachable {
        return false;
      }
      connected := true;
      return true;
    }

    // Offers the NAL's packets to the socket, in order, up to the first that is refused, and
    // succeeds exactly if none is: then all of them are on the wire.
    method SendNal(nal: Bytes) returns (ok: bool)
      requires Valid()
      modifies this, socket
      ensures Valid() && connected == old(connected) && timestamp == old(timestamp)
      ensures !connected || nal == [] ==> !ok && actions == old(actions) && socket.offers == old(socket.offers)
      ensures connected && nal != [] ==>
                var first, packets := |old(socket.offers)|, Packets(old(sequence), timestamp, ssrc, nal);
                && (ok <==> NoRefusal(socket.refusal, first, first + |packets|))
                && (ok ==> TakenOf(socket.offers) == TakenOf(old(socket.offers)) + packets)
                && exists taken: nat ::
                     && actions == old(actions) + [Send(nal, taken)] && (ok <==> taken == |packets|)
                     && IsFirstRefusal(socket.refusal, first, |packets|, taken)
                     && socket.offers == old(socket.offers) + OffersUpTo(packets, taken)
    {
      if !connected || nal == [] {
        return false;
      }
      var fragments := FragmentNal(nal, DEFAULT_MTU);
      if fragments == [] {
        return false;
      }
      hide *;
      ghost var before, packets := socket.offers, Packets(sequence, timestamp, ssrc, nal);
      StreamIs();
      var taken := SendFragments(nal, fragments);
      OffersGrew(nal, taken, before);
      TakenOfGrown(socket, before, packets, taken);
      Record(Send(nal, taken));
      assert actions == old(actions) + [Send(nal, taken)];
      return taken == |fragments|;
    }

    // The loop: sends the fragments in order until one fails, and tells how many were taken.
    method SendFragments(nal: Bytes, fragments: seq<Bytes>) returns (taken: nat)
      requires Valid() && nal != [] && fragments == Fragments(nal, DEFAULT_MTU) && fragments != []
      modifies this`sequence, socket
      ensures Unmoved(stream, actions) && Legal(Send(nal, taken))
      ensures Matches(Step(stream, Send(nal, taken)))
    {
      PartialEnds(stream, nal);
      hide Fragments, Offers, Replay, PacketBytes, Partial, Step, SequenceAfter, AllSound, AllLegal;
      for i := 0 to |fragments|
        invariant Unmoved(stream, actions) && Matches(Partial(stream, nal, i))
      {
        var sent := SendFragment(fragments[i], i == |fragments| - 1);
        OneMore(stream, nal, i, sent);
        if !sent {
          return i;
        }
      }
      return |fragments|;
    }

    // The body of the loop: one packet is built, which uses up a sequence number, and sent.
    method SendFragment(payload: Bytes, last: bool) returns (sent: bool)
      requires socket.Valid()
      modifies this`sequence, socket
      ensures socket.Valid() && (sent <==> !socket.refusal(|old(socket.offers)|))
      ensures sequence == SequenceAfter(old(sequence), 1)
      ensures var header := Header(PAYLOAD_TYPE, old(sequence), timestamp, ssrc, last);
              socket.offers == old(socket.offers) + [Offer(PacketBytes(header, payload), sent)]
    {
      var header := Header(PAYLOAD_TYPE, sequence, timestamp, ssrc, last);
      sequence := (sequence + 1) % 0x1_0000;
      var packet := BuildPacket(header, payload);
      var n := socket.Send(packet[..]);
      sent := n >= 0;
    }

    lemma StreamIs()
      requires Valid()
      ensures AllSound(stream.slots) && socket.Valid() && socket.offers == Offers(stream.slots)
      ensures sequence == stream.sequence && timestamp == stream.timestamp && ssrc == stream.ssrc
    {}

    lemma OffersGrew(nal: Bytes, taken: nat, before: seq<Offer>)
      requires Legal(Send(nal, taken)) && AllSound(stream.slots) && before == Offers(stream.slots)
      requires Matches(Step(stream, Send(nal, taken)))
      ensures taken <= |Fragments(nal, DEFAULT_MTU)| && socket.Valid()
      ensures socket.offers == before
                + OffersUpTo(Packets(stream.sequence, stream.timestamp, stream.ssrc, nal), taken)
    {
      SendOffers(stream, nal, taken);
      hide Step, Offers, Fragments, OffersUpTo;
    }

    // Everything but the sequence number and what the socket was offered is as it was.
    ghost predicate Unmoved(before: Stream, actions: seq<Action>)
      reads this
    {
      && this.actions == actions && stream == before && AllLegal(actions)
      && before == Replay(origin, actions)
      && timestamp == before.timestamp && ssrc == before.ssrc
      && origin.slots == [] && origin.timestamp == 0 && origin.ssrc == ssrc
    }

    ghost predicate Matches(s: Stream)
      reads this, socket
    {
      && sequence == s.sequence && timestamp == s.timestamp
      && AllSound(s.slots) && socket.Valid() && socket.offers == Offers(s.slots)
    }

    // Enters an action whose effect on the fields has already happened into the history.
    ghost method Record(a: Action)
      requires Unmoved(stream, actions) && Legal(a)
      requires Matches(Step(stream, a))
      modifies this`actions, this`stream
      ensures Valid() && actions == old(actions) + [a]
    {
      ReplayAppend(origin, actions, a);
      hide Replay, Offers, Fragments;
      actions, stream := actions + [a], Step(stream, a);
    }

    method AdvanceTimestamp(increment: uint32)
      requires Valid()
      modifies this
      ensures Valid() && actions == old(actions) + [Advance(increment)] && connected == old(connected)
    {
      hide Replay, Offers, Fragments;
      timestamp := (timestamp + increment) % 0x1_0000_0000;
      ReplayAppend(origin, actions, Advance(increment));
      actions, stream := actions + [Advance(increment)], Step(stream, Advance(increment));
    }
  }

  // ----- The closed form of a run -----

  // Where a streamer starts: the drawn sequence number and SSRC, and time 0.
  function Start(sequence: uint16, ssrc: uint32): Stream {
    Stream(sequence, 0, ssrc, [])
  }

  function TotalAdvance(actions: seq<Action>): nat {
    if actions == [] then 0
    else
      var last := actions[|actions| - 1];
      TotalAdvance(actions[..|actions| - 1]) + if last.Advance? then last.increment else 0
  }

  lemma {:induction false} ReplayCounters(sequence: uint16, ssrc: uint32, actions: seq<Action>)
    ensures var s := Replay(Start(sequence, ssrc), actions);
            && s.sequence == SequenceAfter(sequence, |s.slots|) && s.ssrc == ssrc
            && s.timestamp == TotalAdvance(actions) % 0x1_0000_0000
  {
    hide Step, SequenceAfter;
    if actions != [] {
      var before := actions[..|actions| - 1];
      var last := actions[|actions| - 1];
      ReplayCounters(sequence, ssrc, before);
      var s := Replay(Start(sequence, ssrc), before);
      if last.Send? {
        SendCounts(sequence, s, last);
      } else {
        AddMod(TotalAdvance(before), last.increment, 0x1_0000_0000);
        AdvanceCounts(s, last);
      }
    } else {
      NothingBuilt(sequence);
    }
  }

  lemma NothingBuilt(sequence: uint16)
    ensures SequenceAfter(sequence, 0) == sequence
  {}

  lemma SendCounts(sequence: uint16, s: Stream, a: Action)
    requires a.Send? && s.sequence == SequenceAfter(sequence, |s.slots|)
    ensures var n := Step(s, a);
            n.sequence == SequenceAfter(sequence, |n.slots|) && n.ssrc == s.ssrc && n.timestamp == s.timestamp
  {
    hide Fragments;
    AddMod(sequence + |s.slots|, BuiltCount(a), 0x1_0000);
  }

  lemma AdvanceCounts(s: Stream, a: Action)
    requires a.Advance?
    ensures Step(s, a) == s.(timestamp := (s.timestamp + a.increment) % 0x1_0000_0000)
  {}
}
