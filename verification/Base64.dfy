// The Base64 encoder (src/util/base64.cpp) with a decoder for section 4 of RFC 4648.
module Base64 {
  import opened Prelude

  function Range(first: char, n: nat): string
    requires first as int + n <= 128
  {
    seq(n, i requires 0 <= i < n => (first as int + i) as char)
  }

  const ALPHABET: string := Range('A', 26) + Range('a', 26) + Range('0', 10) + "+/"

  type Sextet = v: byte | v < 64

  function Letter(v: Sextet): char {
    ALPHABET[v as int]
  }

  // The first, second, third or fourth six of the 24 bits of a group,
  function SextetAt(triple: bv32, k: nat): Sextet
    requires k < 4
  {
    if k == 0 then LowSextet(triple >> 18)
    else if k == 1 then LowSextet(triple >> 12)
    else if k == 2 then LowSextet(triple >> 6)
    else LowSextet(triple)
  }

  function LowSextet(x: bv32): Sextet {
    SextetBound(x);
    (x & 0x3F) as byte
  }

  // and the letter they are sent as.
  function LetterAt(triple: bv32, k: nat): char
    requires k < 4
  {
    Letter(SextetAt(triple, k))
  }

  lemma SextetBound(x: bv32)
    ensures x & 0x3F < 64
  {}

  function Triple(a: byte, b: byte, c: byte): bv32 {
    ((a as bv32) << 16) | ((b as bv32) << 8) | (c as bv32)
  }

  // What the last one or two octets, or none, are sent as.
  function EncodeTail(data: Bytes): string
    requires |data| < 3
  {
    if |data| == 0 then ""
    else if |data| == 1 then
      var t := Triple(data[0], 0, 0);
      [LetterAt(t, 0), LetterAt(t, 1), '=', '=']
    else
      var t := Triple(data[0], data[1], 0);
      [LetterAt(t, 0), LetterAt(t, 1), LetterAt(t, 2), '=']
  }

  function EncodeGroup(a: byte, b: byte, c: byte): string {
    var t := Triple(a, b, c);
    [LetterAt(t, 0), LetterAt(t, 1), LetterAt(t, 2), LetterAt(t, 3)]
  }

  function Encode(data: Bytes): string {
    if |data| < 3 then EncodeTail(data) else EncodeGroup(data[0], data[1], data[2]) + Encode(data[3..])
  }

  lemma EncodeUnfold(data: Bytes, i: nat)
    requires i + 3 <= |data|
    ensures Encode(data[i..]) == EncodeGroup(data[i], data[i + 1], data[i + 2]) + Encode(data[i + 3..])
  {
    assert data[i..][3..] == data[i + 3..];
  }

  method Base64Encode(data: Bytes) returns (out: string)
    ensures out == Encode(data) && Decode(out) == Some(data)
  {
    DecodeEncode(data);
    EncodeEnds(data);
    hide *;
    if |data| == 0 {
      return "";
    }
    out := "";
    var i := 0;
    while i + 3 <= |data|
      invariant i <= |data| && out + Encode(data[i..]) == Encode(data)
    {
      EncodeUnfold(data, i);
      var triple := Triple(data[i], data[i + 1], data[i + 2]);
      GroupLetters(data[i], data[i + 1], data[i + 2]);
      ghost var before := out;
      out := out + [LetterAt(triple, 0)];
      out := out + [LetterAt(triple, 1)];
      out := out + [LetterAt(triple, 2)];
      out := out + [LetterAt(triple, 3)];
      AppendFour(before, LetterAt(triple, 0), LetterAt(triple, 1), LetterAt(triple, 2), LetterAt(triple, 3));
      Regroup(before, EncodeGroup(data[i], data[i + 1], data[i + 2]), Encode(data[i + 3..]));
      i := i + 3;
    }
    var remain := |data| - i;
    EncodeEnds(data[i..]);
    ghost var before := out;
    if remain == 1 {
      var triple := Triple(data[i], 0, 0);
      out := out + [LetterAt(triple, 0)];
      out := out + [LetterAt(triple, 1)];
      out := out + ['='];
      out := out + ['='];
      AppendFour(before, LetterAt(triple, 0), LetterAt(triple, 1), '=', '=');
    } else if remain == 2 {
      var triple := Triple(data[i], data[i + 1], 0);
      out := out + [LetterAt(triple, 0)];
      out := out + [LetterAt(triple, 1)];
      out := out + [LetterAt(triple, 2)];
      out := out + ['='];
      AppendFour(before, LetterAt(triple, 0), LetterAt(triple, 1), LetterAt(triple, 2), '=');
    }
  }

  lemma AppendFour(s: string, a: char, b: char, c: char, d: char)
    ensures s + [a] + [b] + [c] + [d] == s + [a, b, c, d]
  {}

  lemma GroupLetters(a: byte, b: byte, c: byte)
    ensures var t := Triple(a, b, c);
            EncodeGroup(a, b, c) == [LetterAt(t, 0), LetterAt(t, 1), LetterAt(t, 2), LetterAt(t, 3)]
  {}

  lemma EncodeEnds(data: Bytes)
    ensures data == [] ==> Encode(data) == ""
    ensures |data| == 1 ==> var t := Triple(data[0], 0, 0);
                            Encode(data) == [LetterAt(t, 0), LetterAt(t, 1), '=', '=']
    ensures |data| == 2 ==> var t := Triple(data[0], data[1], 0);
                            Encode(data) == [LetterAt(t, 0), LetterAt(t, 1), LetterAt(t, 2), '=']
  {}

  // ----- Decoding -----

  function Value(c: char): Option<Sextet> {
    if 'A' <= c <= 'Z' then Some(SmallByte(c as int - 'A' as int))
    else if 'a' <= c <= 'z' then Some(SmallByte(c as int - 'a' as int + 26))
    else if '0' <= c <= '9' then Some(SmallByte(c as int - '0' as int + 52))
    else if c == '+' then Some(62)
    else if c == '/' then Some(63)
    else None
  }

  function SmallByte(v: int): (b: Sextet)
    requires 0 <= v < 64
    ensures b as int == v
  {
    ToByte(v)
  }

  lemma ValueOfLetter(v: Sextet)
    ensures Value(Letter(v)) == Some(v)
  {
    var i := v as int;
    assert ALPHABET[i] ==
      if i < 26 then ('A' as int + i) as char
      else if i < 52 then ('a' as int + i - 26) as char
      else if i < 62 then ('0' as int + i - 52) as char
      else if i == 62 then '+' else '/';
    SameByte(v, Value(Letter(v)).value);
  }

  lemma SameByte(a: byte, b: byte)
    requires a as int == b as int
    ensures a == b
  {}

  // The 24 bits of four letters.
  function Join(p: Sextet, q: Sextet, r: Sextet, s: Sextet): bv32 {
    ((p as bv32) << 18) | ((q as bv32) << 12) | ((r as bv32) << 6) | (s as bv32)
  }

  function OctetAt(t: bv32, k: nat): byte
    requires k < 3
  {
    if k == 0 then ((t >> 16) & 0xFF) as byte
    else if k == 1 then ((t >> 8) & 0xFF) as byte
    else (t & 0xFF) as byte
  }

  // Four letters stand for three octets; with one or two paddings, for two or one.
  function DecodeGroup(g: string): Option<Bytes>
    requires |g| == 4
  {
    match (Value(g[0]), Value(g[1]), Value(g[2]), Value(g[3]))
    case (Some(p), Some(q), Some(r), Some(s)) =>
      var t := Join(p, q, r, s);
      Some([OctetAt(t, 0), OctetAt(t, 1), OctetAt(t, 2)])
    case (Some(p), Some(q), Some(r), None) =>
      var t := Join(p, q, r, 0);
      if g[3] == '=' then Some([OctetAt(t, 0), OctetAt(t, 1)]) else None
    case (Some(p), Some(q), None, None) =>
      if g[2] == '=' && g[3] == '=' then Some([OctetAt(Join(p, q, 0, 0), 0)]) else None
    case _ => None
  }

  // Padding only ends the text.
  function Decode(text: string): Option<Bytes> {
    if text == "" then Some([])
    else if |text| < 4 then None
    else
      match (DecodeGroup(text[..4]), Decode(text[4..]))
      case (Some(octets), Some(rest)) => if |octets| < 3 && rest != [] then None else Some(octets + rest)
      case _ => None
  }

  lemma ValueOfLetterAt(t: bv32, k: nat)
    requires k < 4
    ensures Value(LetterAt(t, k)) == Some(SextetAt(t, k))
  {
    hide SextetAt;
    ValueOfLetter(SextetAt(t, k));
  }

  // A sextet in its place is a mask of the group.
  lemma SextetInPlace(t: bv32)
    ensures (SextetAt(t, 0) as bv32) << 18 == t & 0xFC_0000
    ensures (SextetAt(t, 1) as bv32) << 12 == t & 0x3_F000
    ensures (SextetAt(t, 2) as bv32) << 6 == t & 0xFC0
    ensures SextetAt(t, 3) as bv32 == t & 0x3F
  {}

  // The masks together are the 24 bits; those of the sextets that only hold zeros are zero.
  lemma MasksJoin(t: bv32)
    requires t & 0xFF00_0000 == 0
    ensures (t & 0xFC_0000) | (t & 0x3_F000) | (t & 0xFC0) | (t & 0x3F) == t
    ensures t & 0xFF == 0 ==> t & 0x3F == 0
    ensures t & 0xFFFF == 0 ==> t & 0xFC0 == 0
  {}

  lemma TripleBits(a: byte, b: byte, c: byte)
    ensures var t := Triple(a, b, c);
            && t & 0xFF00_0000 == 0 && (c == 0 ==> t & 0xFF == 0) && (b == 0 && c == 0 ==> t & 0xFFFF == 0)
  {}

  // Splitting 24 bits into sextets and joining them again changes nothing, also when the bits
  // that the padding stands for are zero.
  lemma JoinSplits(a: byte, b: byte, c: byte)
    ensures var t := Triple(a, b, c);
            && Join(SextetAt(t, 0), SextetAt(t, 1), SextetAt(t, 2), SextetAt(t, 3)) == t
            && (c == 0 ==> Join(SextetAt(t, 0), SextetAt(t, 1), SextetAt(t, 2), 0) == t)
            && (b == 0 && c == 0 ==> Join(SextetAt(t, 0), SextetAt(t, 1), 0, 0) == t)
  {
    hide SextetAt, Triple;
    var t := Triple(a, b, c);
    TripleBits(a, b, c);
    SextetInPlace(t);
    MasksJoin(t);
  }

  lemma OctetsOfTriple(a: byte, b: byte, c: byte)
    ensures var t := Triple(a, b, c); OctetAt(t, 0) == a && OctetAt(t, 1) == b && OctetAt(t, 2) == c
  {}

  lemma DecodeOneGroup(a: byte, b: byte, c: byte)
    ensures DecodeGroup(EncodeGroup(a, b, c)) == Some([a, b, c])
  {
    var t := Triple(a, b, c);
    ValueOfLetterAt(t, 0);
    ValueOfLetterAt(t, 1);
    ValueOfLetterAt(t, 2);
    ValueOfLetterAt(t, 3);
    JoinSplits(a, b, c);
    OctetsOfTriple(a, b, c);
    hide Value, LetterAt, Join, Triple, OctetAt, SextetAt;
  }

  lemma DecodeTail(data: Bytes)
    requires 0 < |data| < 3
    ensures |EncodeTail(data)| == 4 && DecodeGroup(EncodeTail(data)) == Some(data)
  {
    var b := if |data| == 2 then data[1] else 0;
    var t := Triple(data[0], b, 0);
    ValueOfLetterAt(t, 0);
    ValueOfLetterAt(t, 1);
    ValueOfLetterAt(t, 2);
    JoinSplits(data[0], b, 0);
    OctetsOfTriple(data[0], b, 0);
    var g := EncodeTail(data);
    assert Value(g[3]) == None && (|data| == 1 ==> Value(g[2]) == None);
    hide Value, LetterAt, Join, Triple, OctetAt, SextetAt;
    assert |data| == 1 ==> data == [data[0]];
    assert |data| == 2 ==> data == [data[0], data[1]];
  }

  // Round trip: decoding what was encoded gives the same octets, whatever their number.
  lemma {:induction false} DecodeEncode(data: Bytes)
    ensures Decode(Encode(data)) == Some(data)
  {
    hide DecodeGroup, EncodeGroup;
    if |data| >= 3 {
      DecodeOneGroup(data[0], data[1], data[2]);
      DecodeEncode(data[3..]);
      GroupShape(data[0], data[1], data[2]);
      assert data == [data[0], data[1], data[2]] + data[3..];
    } else if |data| > 0 {
      DecodeTail(data);
      DecodeLastGroup(EncodeTail(data), data);
      hide EncodeTail;
    }
  }

  lemma DecodeLastGroup(g: string, octets: Bytes)
    requires |g| == 4 && DecodeGroup(g) == Some(octets)
    ensures Decode(g) == Some(octets)
  {
    assert g[..4] == g && g[4..] == "";
    assert Decode(g[4..]) == Some([]);
    assert octets + [] == octets;
  }

  lemma LetterIsBase64(t: bv32, k: nat)
    requires k < 4
    ensures IsBase64Char(LetterAt(t, k))
  {
    hide LetterAt, Value;
    ValueOfLetterAt(t, k);
  }

  lemma GroupShape(a: byte, b: byte, c: byte)
    ensures |EncodeGroup(a, b, c)| == 4 && AllBase64(EncodeGroup(a, b, c))
  {
    var t := Triple(a, b, c);
    LetterIsBase64(t, 0);
    LetterIsBase64(t, 1);
    LetterIsBase64(t, 2);
    LetterIsBase64(t, 3);
    hide IsBase64Char, LetterAt;
  }

  lemma TailShape(data: Bytes)
    requires 0 < |data| < 3
    ensures |EncodeTail(data)| == 4 && AllBase64(EncodeTail(data))
  {
    var t := Triple(data[0], if |data| == 2 then data[1] else 0, 0);
    LetterIsBase64(t, 0);
    LetterIsBase64(t, 1);
    LetterIsBase64(t, 2);
    assert IsBase64Char('=');
    hide IsBase64Char, LetterAt, Triple;
  }

  predicate IsBase64Char(c: char) {
    Value(c).Some? || c == '='
  }

  predicate AllBase64(s: string) {
    forall i :: 0 <= i < |s| ==> IsBase64Char(s[i])
  }

  // The text has four letters for each three octets begun, all of the alphabet or '='; so it
  // holds no comma, semicolon or line end, and is empty only for no octets.
  lemma {:induction false} EncodeShape(data: Bytes)
    ensures |Encode(data)| == (|data| + 2) / 3 * 4 && AllBase64(Encode(data))
  {
    if |data| >= 3 {
      EncodeShape(data[3..]);
      GroupShape(data[0], data[1], data[2]);
    } else if |data| > 0 {
      TailShape(data);
    }
    hide EncodeGroup, IsBase64Char, EncodeTail;
    assert |data| < 3 && |data| > 0 ==> Encode(data) == EncodeTail(data);
  }
}
