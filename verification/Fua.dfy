// Cutting a NAL into RTP payloads (src/rtp/h264_fua.cpp), by section 5.8 of RFC 6184.
module Fua {
  import opened Prelude

  // The limit the code applies (kDefaultMtu).
  const DEFAULT_MTU: nat := 1400

  function Min(a: nat, b: nat): nat {
    if a < b then a else b
  }

  // ----- The two header octets -----

  function FuIndicator(nal: Bytes): byte
    requires nal != []
  {
    (nal[0] & 0xE0) | 28
  }

  function FuHeader(nal: Bytes, first: bool, last: bool): byte
    requires nal != []
  {
    NalType(nal) | (if first then 0x80 else 0) | (if last then 0x40 else 0)
  }

  predicate StartBit(payload: Bytes)
    requires |payload| >= 2
  {
    payload[1] & 0x80 != 0
  }

  predicate EndBit(payload: Bytes)
    requires |payload| >= 2
  {
    payload[1] & 0x40 != 0
  }

  // The NAL header that a receiver rebuilds from the two octets of a fragment.
  function RebuiltHeader(payload: Bytes): byte
    requires |payload| >= 2
  {
    (payload[0] & 0xE0) | (payload[1] & 0x1F)
  }

  lemma HeaderOctets(nal: Bytes, first: bool, last: bool, data: Bytes)
    requires nal != []
    ensures var payload := [FuIndicator(nal), FuHeader(nal, first, last)] + data;
            && RebuiltHeader(payload) == nal[0] && NalType(payload) == 28
            && StartBit(payload) == first && EndBit(payload) == last
            && payload[1] & 0x20 == 0
  {}

  // ----- The fragments -----

  // How many fragments: ceil((len - 1) / (mtu - 2)), the NAL header not being sent as data.
  function Count(len: nat, mtu: nat): nat
    requires 3 <= mtu < len
  {
    (len - 1 + mtu - 3) / (mtu - 2)
  }

  // Where fragment j begins in the NAL.
  function Cut(len: nat, mtu: nat, j: nat): nat
    requires 3 <= mtu < len
  {
    Min(1 + j * (mtu - 2), len)
  }

  function Fragment(nal: Bytes, mtu: nat, j: nat): Bytes
    requires 3 <= mtu < |nal| && j < Count(|nal|, mtu)
  {
    CutBounds(|nal|, mtu, j);
    [FuIndicator(nal), FuHeader(nal, j == 0, j == Count(|nal|, mtu) - 1)]
    + nal[Cut(|nal|, mtu, j)..Cut(|nal|, mtu, j + 1)]
  }

  // The payloads of a NAL: itself when it fits, its FU-A fragments when it does not.
  function Fragments(nal: Bytes, mtu: nat): seq<Bytes>
    requires |nal| <= mtu || 3 <= mtu
  {
    if nal == [] then []
    else if |nal| <= mtu then [nal]
    else seq(Count(|nal|, mtu), j requires 0 <= j < Count(|nal|, mtu) => Fragment(nal, mtu, j))
  }

  lemma DivBounds(x: nat, d: nat)
    requires d > 0
    ensures x / d * d <= x < x / d * d + d
  {}

  lemma MulMonotone(a: nat, b: nat, d: nat)
    requires a <= b
    ensures a * d <= b * d
  {}

  // j counts a fragment exactly when its data begins before the end of the NAL.
  lemma CountIff(len: nat, mtu: nat, j: nat)
    requires 3 <= mtu < len
    ensures j < Count(len, mtu) <==> 1 + j * (mtu - 2) < len
    ensures Count(len, mtu) >= 2
  {
    var d := mtu - 2;
    var n := Count(len, mtu);
    DivBounds(len - 1 + d - 1, d);
    if j < n {
      MulMonotone(j + 1, n, d);
      assert (j + 1) * d == j * d + d;
    } else {
      MulMonotone(n, j, d);
    }
    assert n <= 1 ==> n * d <= d;
  }

  lemma CutIff(len: nat, mtu: nat, j: nat)
    requires 3 <= mtu < len
    ensures j < Count(len, mtu) <==> Cut(len, mtu, j) < len
    ensures Cut(len, mtu, j) <= len && Cut(len, mtu, 0) == 1 && Count(len, mtu) >= 2
  {
    CountIff(len, mtu, j);
  }

  lemma CutBounds(len: nat, mtu: nat, j: nat)
    requires 3 <= mtu < len && j < Count(len, mtu)
    ensures Cut(len, mtu, 0) == 1 && Cut(len, mtu, Count(len, mtu)) == len
    ensures 1 <= Cut(len, mtu, j) < Cut(len, mtu, j + 1) <= len
    ensures Cut(len, mtu, j + 1) - Cut(len, mtu, j) <= mtu - 2
  {
    CountIff(len, mtu, j);
    CountIff(len, mtu, Count(len, mtu));
    assert (j + 1) * (mtu - 2) == j * (mtu - 2) + (mtu - 2);
  }

  // The loop of fragment_nal, which needs mtu >= 3 once it has to cut.
  method FragmentNal(nal: Bytes, mtu: nat) returns (fragments: seq<Bytes>)
    requires |nal| <= mtu || 3 <= mtu
    ensures fragments == Fragments(nal, mtu)
  {
    hide Count, Cut, Fragment;
    if nal == [] {
      return [];
    }
    if |nal| <= mtu {
      return [nal];
    }
    var nalType := nal[0] & 0x1F;
    var fnri := nal[0] & 0xE0;
    var fuIndicator := fnri | 28;
    var payload := nal[1..];
    var maxPayloadPerFragment := mtu - 2;

    fragments := [];
    var offset := 0;
    var isFirst := true;
    ghost var n := Count(|nal|, mtu);
    CutIff(|nal|, mtu, 0);
    while offset < |payload|
      invariant |fragments| <= n && offset + 1 == Cut(|nal|, mtu, |fragments|)
      invariant isFirst == (|fragments| == 0)
      invariant forall j :: 0 <= j < |fragments| ==> fragments[j] == Fragment(nal, mtu, j)
    {
      ghost var j := |fragments|;
      CutIff(|nal|, mtu, j);
      CutBounds(|nal|, mtu, j);
      var chunkSize := Min(maxPayloadPerFragment, |payload| - offset);
      var isLast := offset + chunkSize >= |payload|;
      NextCut(|nal|, mtu, j);

      var fuHeader := nalType;
      if isFirst {
        fuHeader := fuHeader | 0x80;
      }
      if isLast {
        fuHeader := fuHeader | 0x40;
      }
      var fragment := [fuIndicator] + [fuHeader] + payload[offset..offset + chunkSize];
      FragmentIs(nal, mtu, j, fragment);
      fragments := fragments + [fragment];
      offset := offset + chunkSize;
      isFirst := false;
    }
    CutIff(|nal|, mtu, |fragments|);
    return fragments;
  }

  lemma FragmentIs(nal: Bytes, mtu: nat, j: nat, f: Bytes)
    requires 3 <= mtu < |nal| && j < Count(|nal|, mtu)
    requires 1 <= Cut(|nal|, mtu, j) <= Cut(|nal|, mtu, j + 1) <= |nal|
    requires f == [FuIndicator(nal)] + [FuHeader(nal, j == 0, j == Count(|nal|, mtu) - 1)]
                  + nal[1..][Cut(|nal|, mtu, j) - 1..Cut(|nal|, mtu, j + 1) - 1]
    ensures f == Fragment(nal, mtu, j)
  {
    hide Count, Cut;
  }

  // The next cut is one fragment further on, or the end of the NAL.
  lemma NextCut(len: nat, mtu: nat, j: nat)
    requires 3 <= mtu < len && j < Count(len, mtu)
    ensures Cut(len, mtu, j + 1) == Cut(len, mtu, j) + Min(mtu - 2, len - Cut(len, mtu, j))
    ensures j == Count(len, mtu) - 1 <==> Cut(len, mtu, j + 1) == len
  {
    CountIff(len, mtu, j);
    CountIff(len, mtu, j + 1);
    assert (j + 1) * (mtu - 2) == j * (mtu - 2) + (mtu - 2);
  }

  // ----- Putting the NAL together again -----

  predicate AllFu(fragments: seq<Bytes>) {
    forall i :: 0 <= i < |fragments| ==> |fragments[i]| > 2
  }

  // What a receiver holds after the first k fragments: the rebuilt header and the data so far.
  function Rejoined(fragments: seq<Bytes>, k: nat): Bytes
    requires AllFu(fragments) && 1 <= k <= |fragments|
  {
    if k == 1 then [RebuiltHeader(fragments[0])] + fragments[0][2..]
    else Rejoined(fragments, k - 1) + fragments[k - 1][2..]
  }

  lemma FragmentParts(nal: Bytes, mtu: nat, j: nat)
    requires 3 <= mtu < |nal| && j < Count(|nal|, mtu)
    ensures var f := Fragment(nal, mtu, j);
            && Cut(|nal|, mtu, j) < Cut(|nal|, mtu, j + 1) <= |nal|
            && |f| > 2 && RebuiltHeader(f) == nal[0] && NalType(f) == 28
            && f[2..] == nal[Cut(|nal|, mtu, j)..Cut(|nal|, mtu, j + 1)]
            && StartBit(f) == (j == 0) && EndBit(f) == (j == Count(|nal|, mtu) - 1)
  {
    CutBounds(|nal|, mtu, j);
    HeaderOctets(nal, j == 0, j == Count(|nal|, mtu) - 1, nal[Cut(|nal|, mtu, j)..Cut(|nal|, mtu, j + 1)]);
  }

  lemma FragmentsAllFu(nal: Bytes, mtu: nat)
    requires 3 <= mtu < |nal|
    ensures AllFu(Fragments(nal, mtu))
  {
    forall j | 0 <= j < Count(|nal|, mtu) ensures |Fragment(nal, mtu, j)| > 2 {
      FragmentParts(nal, mtu, j);
    }
  }

  // After k fragments the receiver holds the NAL up to the k-th cut.
  lemma {:induction false} RejoinedPrefix(nal: Bytes, mtu: nat, k: nat)
    requires 3 <= mtu < |nal| && 1 <= k <= Count(|nal|, mtu)
    ensures AllFu(Fragments(nal, mtu))
    ensures Rejoined(Fragments(nal, mtu), k) == nal[..Cut(|nal|, mtu, k)]
  {
    FragmentsAllFu(nal, mtu);
    CutBounds(|nal|, mtu, k - 1);
    var c, d := Cut(|nal|, mtu, k - 1), Cut(|nal|, mtu, k);
    FragmentParts(nal, mtu, k - 1);
    var fs := Fragments(nal, mtu);
    assert |fs| == Count(|nal|, mtu) && fs[k - 1] == Fragment(nal, mtu, k - 1);
    if k == 1 {
      assert nal[..d] == [nal[0]] + nal[1..d];
    } else {
      RejoinedPrefix(nal, mtu, k - 1);
      hide *;
      RejoinedStep(nal, fs, k, c, d);
    }
  }

  lemma RejoinedStep(nal: Bytes, fs: seq<Bytes>, k: nat, c: nat, d: nat)
    requires AllFu(fs) && 2 <= k <= |fs| && c <= d <= |nal|
    requires Rejoined(fs, k - 1) == nal[..c] && fs[k - 1][2..] == nal[c..d]
    ensures Rejoined(fs, k) == nal[..d]
  {
    assert nal[..d] == nal[..c] + nal[c..d];
  }

  // Round trip: rejoining the fragments of a NAL gives the NAL.
  lemma RejoinFragments(nal: Bytes, mtu: nat)
    requires 3 <= mtu < |nal|
    ensures AllFu(Fragments(nal, mtu)) && |Fragments(nal, mtu)| == Count(|nal|, mtu) >= 2
    ensures Rejoined(Fragments(nal, mtu), Count(|nal|, mtu)) == nal
  {
    CutIff(|nal|, mtu, 0);
    CutBounds(|nal|, mtu, 0);
    RejoinedPrefix(nal, mtu, Count(|nal|, mtu));
  }

  // A NAL is sent as it is exactly when it fits, also when it is just as long as a payload may be.
  lemma WholeIff(nal: Bytes, mtu: nat)
    requires nal != [] && (|nal| <= mtu || 3 <= mtu)
    ensures Fragments(nal, mtu) == [nal] <==> |nal| <= mtu
    ensures |Fragments(nal, mtu)| == 1 <==> |nal| <= mtu
  {
    if |nal| > mtu {
      CountIff(|nal|, mtu, 0);
    }
  }

  // Every payload fits, S is on the first fragment only and E on the last only, so never both.
  lemma FragmentBounds(nal: Bytes, mtu: nat, j: nat)
    requires |nal| <= mtu || 3 <= mtu
    requires j < |Fragments(nal, mtu)|
    ensures 0 < |Fragments(nal, mtu)[j]| <= mtu
    ensures |nal| > mtu ==>
              var f := Fragments(nal, mtu)[j];
              && 2 <= |f| && NalType(f) == 28
              && StartBit(f) == (j == 0) && EndBit(f) == (j == |Fragments(nal, mtu)| - 1)
              && !(StartBit(f) && EndBit(f))
  {
    if |nal| > mtu {
      CountIff(|nal|, mtu, j);
      CutBounds(|nal|, mtu, j);
      FragmentParts(nal, mtu, j);
    }
  }
}
