// The RTP header (src/rtp/packetizer.cpp), by section 5.1 of RFC 3550.
module Packetizer {
  import opened Prelude

  const RTP_HEADER_SIZE: nat := 12

  datatype Header = Header(payloadType: byte, sequence: uint16, timestamp: uint32, ssrc: uint32, marker: bool)

  // One octet of a value: (x >> 8 * k) & 0xFF.
  function Octet(x: uint32, k: nat): byte
    requires k < 4
  {
    ToByte(if k == 0 then x % 0x100
           else if k == 1 then x / 0x100 % 0x100
           else if k == 2 then x / 0x1_0000 % 0x100
           else x / 0x100_0000)
  }

  // The second octet: the marker bit above the seven bits of the payload type.
  function MarkerAndType(h: Header): byte {
    (if h.marker then 0x80 else 0x00) | (h.payloadType & 0x7F)
  }

  // A 16-bit and a 32-bit field, most significant octet first.
  function Half(x: uint16): (r: Bytes)
    ensures |r| == 2
  {
    [Octet(x, 1), Octet(x, 0)]
  }

  function Word(x: uint32): (r: Bytes)
    ensures |r| == 4
  {
    [Octet(x, 3), Octet(x, 2), Octet(x, 1), Octet(x, 0)]
  }

  function HeaderBytes(h: Header): (r: Bytes)
    ensures |r| == RTP_HEADER_SIZE
  {
    [0x80, MarkerAndType(h)] + Half(h.sequence) + Word(h.timestamp) + Word(h.ssrc)
  }

  function PacketBytes(h: Header, payload: Bytes): Bytes {
    HeaderBytes(h) + payload
  }

  // Four octets stored from at on, and no other.
  method StoreWord(x: uint32, out: array<byte>, at: nat)
    requires at + 4 <= out.Length
    modifies out
    ensures out[at..at + 4] == Word(x)
    ensures forall i | 0 <= i < out.Length && !(at <= i < at + 4) :: out[i] == old(out[i])
  {
    hide Octet;
    out[at] := Octet(x, 3);
    out[at + 1] := Octet(x, 2);
    out[at + 2] := Octet(x, 1);
    out[at + 3] := Octet(x, 0);
  }

  // write_header: stores twelve octets, and nothing behind them.
  method WriteHeader(h: Header, out: array<byte>)
    requires out.Length >= RTP_HEADER_SIZE
    modifies out
    ensures out[..] == HeaderBytes(h) + old(out[RTP_HEADER_SIZE..])
  {
    hide Octet, MarkerAndType, Word;
    out[0] := 0x80;
    out[1] := MarkerAndType(h);
    out[2] := Octet(h.sequence, 1);
    out[3] := Octet(h.sequence, 0);
    assert out[..2] == [0x80, MarkerAndType(h)] && out[2..4] == Half(h.sequence);
    StoreWord(h.timestamp, out, 4);
    assert out[..2] == [0x80, MarkerAndType(h)] && out[2..4] == Half(h.sequence);
    StoreWord(h.ssrc, out, 8);
    hide *;
    assert out[..2] == [0x80, MarkerAndType(h)] && out[2..4] == Half(h.sequence);
    assert out[4..8] == Word(h.timestamp);
    assert out[12..] == old(out[RTP_HEADER_SIZE..]);
    Concatenation(h, out[..]);
  }

  lemma Concatenation(h: Header, packet: Bytes)
    requires |packet| >= 12
    requires packet[..2] == [0x80, MarkerAndType(h)] && packet[2..4] == Half(h.sequence)
    requires packet[4..8] == Word(h.timestamp) && packet[8..12] == Word(h.ssrc)
    ensures packet == PacketBytes(h, packet[12..])
  {
    assert packet == packet[..2] + packet[2..4] + packet[4..8] + packet[8..12] + packet[12..];
  }

  method BuildPacket(h: Header, payload: Bytes) returns (packet: array<byte>)
    ensures fresh(packet) && packet[..] == PacketBytes(h, payload)
  {
    packet := new byte[RTP_HEADER_SIZE + |payload|](_ => 0);
    WriteHeader(h, packet);
    hide HeaderBytes;
    forall i | 0 <= i < |payload| {
      packet[RTP_HEADER_SIZE + i] := payload[i];
    }
    assert packet[..12] == HeaderBytes(h);
    assert packet[12..] == payload;
  }

  // ----- Reading a header -----

  function ValueOfHalf(w: Bytes): uint16
    requires |w| == 2
  {
    (w[0] as int) * 0x100 + (w[1] as int)
  }

  function ValueOfWord(w: Bytes): uint32
    requires |w| == 4
  {
    (w[0] as int) * 0x100_0000 + (w[1] as int) * 0x1_0000 + (w[2] as int) * 0x100 + (w[3] as int)
  }

  // What a receiver reads from the first twelve octets of a packet: version 2, no padding, no
  // extension and no contributing sources, then the fields.
  function ParseHeader(packet: Bytes): Option<Header> {
    if |packet| < RTP_HEADER_SIZE || packet[0] != 0x80 then None
    else Some(Header(packet[1] & 0x7F,
                     ValueOfHalf(packet[2..4]), ValueOfWord(packet[4..8]), ValueOfWord(packet[8..12]),
                     packet[1] & 0x80 != 0))
  }

  lemma ValueOfOctets(x: uint32)
    ensures ValueOfWord(Word(x)) == x
    ensures x < 0x1_0000 ==> ValueOfHalf(Half(x)) == x
  {
    hide ToByte;
    BaseTwoFiftySix(x);
  }

  lemma BaseTwoFiftySix(x: uint32)
    ensures x == x / 0x100_0000 * 0x100_0000 + x / 0x1_0000 % 0x100 * 0x1_0000
                 + x / 0x100 % 0x100 * 0x100 + x % 0x100
    ensures x < 0x1_0000 ==> x / 0x100_0000 == 0 && x / 0x1_0000 == 0
  {
    assert x / 0x1_0000 == x / 0x100 / 0x100 && x / 0x100_0000 == x / 0x1_0000 / 0x100;
  }

  lemma PacketParts(h: Header, payload: Bytes)
    ensures var packet := PacketBytes(h, payload);
            && |packet| >= RTP_HEADER_SIZE && packet[RTP_HEADER_SIZE..] == payload
            && packet[0] == 0x80 && packet[1] == MarkerAndType(h) && packet[2..4] == Half(h.sequence)
            && packet[4..8] == Word(h.timestamp) && packet[8..12] == Word(h.ssrc)
  {
    hide Octet, MarkerAndType, Half, Word;
  }

  lemma MarkerAndTypeBits(h: Header)
    requires h.payloadType & 0x80 == 0
    ensures MarkerAndType(h) & 0x7F == h.payloadType && (MarkerAndType(h) & 0x80 != 0) == h.marker
  {}

  // Round trip: the header octets decode to the fields they were written from, for every
  // 7-bit payload type.
  lemma ParseBuilt(h: Header, payload: Bytes)
    requires h.payloadType & 0x80 == 0
    ensures ParseHeader(PacketBytes(h, payload)) == Some(h)
    ensures PacketBytes(h, payload)[RTP_HEADER_SIZE..] == payload
  {
    ValueOfOctets(h.sequence);
    ValueOfOctets(h.timestamp);
    ValueOfOctets(h.ssrc);
    MarkerAndTypeBits(h);
    PacketParts(h, payload);
    hide Octet, ValueOfHalf, ValueOfWord, MarkerAndType, Half, Word, PacketBytes;
  }
}
