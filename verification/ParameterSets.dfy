// The set-once parameter-set cache of the hub (src/media/hub.cpp): what it holds is always the
// first SPS and the first PPS of the file, and they reach a client unchanged.
module ParameterSets {
  import opened Prelude
  import opened AnnexB
  import Base64
  import Sdp

  const SPS: byte := 7
  const PPS: byte := 8

  datatype Cached = Cached(sps: Bytes, pps: Bytes)

  const NOTHING := Cached([], [])

  function Keep(c: Cached, nal: Bytes): Cached {
    if nal == [] then c
    else if NalType(nal) == SPS && c.sps == [] then c.(sps := nal)
    else if NalType(nal) == PPS && c.pps == [] then c.(pps := nal)
    else c
  }

  function KeepAll(c: Cached, nals: seq<Bytes>): Cached {
    if nals == [] then c else Keep(KeepAll(c, nals[..|nals| - 1]), nals[|nals| - 1])
  }

  // The first NAL of a type; the empty sequence, which is no NAL, if there is none.
  function FirstOf(nals: seq<Bytes>, kind: byte): Bytes {
    if nals == [] then []
    else if nals[0] != [] && NalType(nals[0]) == kind then nals[0]
    else FirstOf(nals[1..], kind)
  }

  predicate IsFirst(nals: seq<Bytes>, kind: byte, k: nat)
    requires k < |nals|
  {
    && nals[k] != [] && NalType(nals[k]) == kind
    && forall i :: 0 <= i < k ==> nals[i] == [] || NalType(nals[i]) != kind
  }

  lemma FirstOfIff(nals: seq<Bytes>, kind: byte)
    ensures FirstOf(nals, kind) == [] <==> forall i :: 0 <= i < |nals| ==> nals[i] == [] || NalType(nals[i]) != kind
    ensures forall k: nat | k < |nals| && IsFirst(nals, kind, k) :: FirstOf(nals, kind) == nals[k]
  {
    if nals != [] && !(nals[0] != [] && NalType(nals[0]) == kind) {
      FirstOfIff(nals[1..], kind);
      forall k: nat | k < |nals| && IsFirst(nals, kind, k) ensures FirstOf(nals, kind) == nals[k] {
        assert k > 0 && IsFirst(nals[1..], kind, k - 1);
      }
    }
  }

  // What is not empty is kept, whatever comes later.
  lemma {:induction false} SetOnce(c: Cached, nals: seq<Bytes>)
    ensures c.sps != [] ==> KeepAll(c, nals).sps == c.sps
    ensures c.pps != [] ==> KeepAll(c, nals).pps == c.pps
  {
    if nals != [] {
      SetOnce(c, nals[..|nals| - 1]);
    }
  }

  lemma FirstOfAppend(a: seq<Bytes>, b: seq<Bytes>, kind: byte)
    ensures FirstOf(a + b, kind) == if FirstOf(a, kind) != [] then FirstOf(a, kind) else FirstOf(b, kind)
  {
    if a == [] {
      assert a + b == b;
    } else {
      assert (a + b)[1..] == a[1..] + b;
    }
  }

  // Keeping is finding the first one of each type.
  lemma {:induction false} KeepsFirst(nals: seq<Bytes>)
    ensures KeepAll(NOTHING, nals) == Cached(FirstOf(nals, SPS), FirstOf(nals, PPS))
  {
    if nals != [] {
      var n := |nals| - 1;
      KeepsFirst(nals[..n]);
      assert nals == nals[..n] + [nals[n]];
      FirstOfAppend(nals[..n], [nals[n]], SPS);
      FirstOfAppend(nals[..n], [nals[n]], PPS);
    }
  }

  // The list starts with these.
  predicate IsFront<T(==)>(a: seq<T>, all: seq<T>) {
    |a| <= |all| && all[..|a|] == a
  }

  // ----- The prescan -----

  predicate Complete(c: Cached) {
    c.sps != [] && c.pps != []
  }

  // Both are among the first pieces of the file.
  predicate Found(content: Bytes, n: nat)
    requires n <= |Split(content)|
  {
    Complete(KeepAll(NOTHING, NonEmpty(Split(content)[..n])))
  }

  // The pieces that so many reads have looked at, and before the last of them not both were found.
  ghost predicate IsScan(content: Bytes, calls: nat, seen: seq<Bytes>) {
    && calls <= 64 && calls <= |Split(content)| && seen == NonEmpty(Split(content)[..calls])
    && forall n: nat :: n < calls ==> !Found(content, n)
  }

  // The rest of the file, from this piece on.
  ghost predicate IsAt(content: Bytes, calls: nat, rest: Bytes) {
    calls <= |Split(content)| && Split(rest) == Split(content)[calls..]
  }

  lemma ScanBegins(content: Bytes)
    ensures IsScan(content, 0, []) && IsAt(content, 0, content)
  {
    hide Split, Pieces;
    assert Split(content)[..0] == [] && Split(content)[0..] == Split(content);
  }

  lemma ScanGoesOn(content: Bytes, calls: nat, seen: seq<Bytes>, rest: Bytes)
    requires IsScan(content, calls, seen) && IsAt(content, calls, rest) && calls < 64 && !Found(content, calls)
    requires calls > 0 ==> calls < |Split(content)|
    ensures var (call, later) := NextRead(rest);
            if Split(content) == [] then !call.ok && seen + call.emitted == seen
            else
              && IsScan(content, calls + 1, seen + call.emitted) && IsAt(content, calls + 1, later)
              && (call.ok <==> calls + 1 < |Split(content)|)
  {
    hide Split, NextRead, NonEmpty, Found;
    var pieces := Split(content);
    if pieces == [] {
      NoPieceRead(rest);
    } else {
      ReadTakesPiece(rest);
      assert pieces[..calls + 1] == pieces[..calls] + [pieces[calls]];
      NonEmptyAppend(pieces[..calls], [pieces[calls]]);
    }
  }

  lemma ScanIsFront(content: Bytes, calls: nat, seen: seq<Bytes>)
    requires IsScan(content, calls, seen)
    ensures IsFront(seen, Nals(content))
  {
    hide Split, NonEmpty, Found;
    NonEmptyAppend(Split(content)[..calls], Split(content)[calls..]);
    assert Split(content) == Split(content)[..calls] + Split(content)[calls..];
  }

  // The members sps_ and pps_ of the hub.
  class ParameterSets {
    var sps: Bytes
    var pps: Bytes
    ghost var seen: seq<Bytes>  // every NAL that was looked at

    ghost predicate Valid() reads this { Cached(sps, pps) == KeepAll(NOTHING, seen) }

    constructor ()
      ensures Valid() && seen == []
    {
      sps, pps := [], [];
      seen := [];
    }

    // The part of on_nal that looks for parameter sets; the callback of the prescan does the same.
    method OnNal(nal: Bytes)
      requires Valid()
      modifies this
      ensures Valid() && seen == old(seen) + [nal]
      ensures Cached(sps, pps) == Keep(old(Cached(sps, pps)), nal)
    {
      if nal != [] {
        var kind := NalType(nal);
        if kind == SPS && sps == [] {
          sps := nal;
        } else if kind == PPS && pps == [] {
          pps := nal;
        }
      }
      seen := seen + [nal];
      assert seen[..|seen| - 1] == old(seen);
    }

    // One read of the prescan.
    method ScanOne(reader: AnnexBReader, fp: File) returns (ok: bool)
      requires Valid() && fp.Valid()
      modifies this, reader, fp`pos
      ensures Valid() && fp.Valid()
      ensures var (call, rest) := NextRead(old(reader.Unread(fp)));
              ok == call.ok && seen == old(seen) + call.emitted && reader.Unread(fp) == rest
    {
      hide Nals, HasTwoCodes, KeepAll, NextRead, Keep;
      NextReadTakes(reader.Unread(fp));
      var emitted;
      ok, emitted := reader.ReadNal(fp);
      if emitted != [] {
        assert emitted == [emitted[0]];
        OnNal(emitted[0]);
      }
    }

    lemma FoundIff(content: Bytes, calls: nat)
      requires Valid() && IsScan(content, calls, seen)
      ensures Found(content, calls) <==> Complete(Cached(sps, pps))
      ensures Complete(Cached(sps, pps)) <==> sps != [] && pps != []
    {}

    // Looks at the pieces of the file one by one until it has both, has made 64 successful reads
    // or is at the end: not at one more, and not at one less. The read of the last piece fails.
    method Prescan(fp: File) returns (scanned: nat, ghost calls: nat)
      requires Valid() && seen == [] && fp.Valid() && fp.Rest() == fp.content
      modifies this, fp`pos
      ensures Valid() && IsScan(fp.content, calls, seen)
      ensures calls == 64 || Complete(Cached(sps, pps)) || calls == |Split(fp.content)|
      ensures scanned == if 0 < calls == |Split(fp.content)| then calls - 1 else calls
      ensures IsFront(seen, Nals(fp.content))
    {
      hide *;
      var reader := new AnnexBReader();
      reader.NothingBuffered(fp);
      ScanBegins(fp.content);
      scanned, calls := 0, 0;
      var ok := true;
      while scanned < 64 && (sps == [] || pps == [])
        invariant Valid() && fp.Valid() && fresh(reader) && scanned == calls <= 64
        invariant IsScan(fp.content, calls, seen) && IsAt(fp.content, calls, reader.Unread(fp))
        invariant calls > 0 ==> calls < |Split(fp.content)|
      {
        ghost var before := reader.Unread(fp);
        ghost var looked := seen;
        FoundIff(fp.content, calls);
        ok := ScanOne(reader, fp);
        ScanGoesOn(fp.content, calls, looked, before);
        calls := if Split(fp.content) == [] then 0 else calls + 1;
        if !ok {
          break;
        }
        scanned := scanned + 1;
      }
      FoundIff(fp.content, calls);
      ScanIsFront(fp.content, calls, seen);
    }

    // sprop_parameter_sets
    method Sprop() returns (text: string)
      ensures text == Sdp.SpropText(sps, pps)
    {
      text := SpropOf(Cached(sps, pps));
    }
  }

  method SpropOf(c: Cached) returns (text: string)
    ensures text == Sdp.SpropText(c.sps, c.pps)
  {
    if c.sps == [] || c.pps == [] {
      return "";
    }
    var a := Base64.Base64Encode(c.sps);
    var b := Base64.Base64Encode(c.pps);
    return a + ("," + b);
  }

  // ----- Beginnings of a list -----

  lemma FirstOfPrefix(nals: seq<Bytes>, k: nat, kind: byte)
    requires k <= |nals|
    ensures FirstOf(nals[..k], kind) == [] || FirstOf(nals[..k], kind) == FirstOf(nals, kind)
  {
    assert nals == nals[..k] + nals[k..];
    FirstOfAppend(nals[..k], nals[k..], kind);
  }
}
