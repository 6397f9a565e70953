// The Annex-B reader (src/media/annexb_reader.cpp): an incremental scanner over whatever
// chunks the stream delivers, proved equal to one split of the whole byte stream.
module AnnexB {
  import opened Prelude

  datatype StartCode = NoCode | Code(pos: nat, len: nat)

  // Length of the start code that begins at i, or 0: 00 00 01, otherwise 00 00 00 01.
  function CodeAt(s: Bytes, i: nat): (len: nat)
    ensures len == 0 || len == 3 || len == 4
    ensures i + len <= |s| || len == 0
  {
    if i + 2 < |s| && s[i] == 0 && s[i + 1] == 0 then
      if s[i + 2] == 1 then 3
      else if i + 3 < |s| && s[i + 2] == 0 && s[i + 3] == 1 then 4
      else 0
    else 0
  }

  // The leftmost start code at or after i.
  function Find(s: Bytes, i: nat): (c: StartCode)
    ensures c.Code? ==> i <= c.pos && c.pos + c.len <= |s| && 3 <= c.len <= 4
    decreases |s| - i
  {
    if i >= |s| then NoCode
    else if CodeAt(s, i) != 0 then Code(i, CodeAt(s, i))
    else Find(s, i + 1)
  }

  // No start code begins in [from, to).
  ghost predicate Clear(s: Bytes, from: nat, to: nat) {
    forall j: nat {:trigger CodeAt(s, j)} :: from <= j < to ==> CodeAt(s, j) == 0
  }

  // A search result is the start code with none in front of it, and there is only one such.
  lemma FindIff(s: Bytes, i: nat, c: StartCode)
    ensures c == Find(s, i) <==>
            if c.NoCode? then Clear(s, i, |s|)
            else i <= c.pos && c.len != 0 && CodeAt(s, c.pos) == c.len && Clear(s, i, c.pos)
    decreases |s| - i
  {
    if i < |s| && CodeAt(s, i) == 0 {
      FindIff(s, i + 1, c);
    }
  }

  // The one-shot split: what stands between consecutive start codes. Octets in front of the
  // first start code belong to no piece, and the last piece runs to the end of the stream.
  function Split(s: Bytes): seq<Bytes> {
    match Find(s, 0)
    case NoCode => []
    case Code(p, n) => Pieces(s[p + n..])
  }

  function Pieces(body: Bytes): seq<Bytes>
    decreases |body|
  {
    match Find(body, 0)
    case NoCode => [body]
    case Code(q, n) => [body[..q]] + Pieces(body[q + n..])
  }

  function NonEmpty(pieces: seq<Bytes>): (r: seq<Bytes>)
    ensures forall x :: x in r <==> x in pieces && x != []
  {
    if pieces == [] then []
    else if pieces[0] == [] then NonEmpty(pieces[1..])
    else [pieces[0]] + NonEmpty(pieces[1..])
  }

  // The NALs of a byte stream.
  function Nals(s: Bytes): seq<Bytes> {
    NonEmpty(Split(s))
  }

  predicate HasTwoCodes(s: Bytes) {
    var c := Find(s, 0);
    c.Code? && Find(s, c.pos + c.len).Code?
  }

  // ----- Searching a growing buffer -----

  // Octets that arrive later leave a complete start code, and a position three octets before
  // the end of what there was, as they were.
  lemma CodeAtInPrefix(a: Bytes, b: Bytes, j: nat)
    requires CodeAt(a, j) != 0 || j + 3 < |a|
    ensures CodeAt(a + b, j) == CodeAt(a, j)
  {}

  // A start code found in a prefix is the one the whole stream has: no octet that arrives
  // later moves it, lengthens it or puts another in front of it.
  lemma FindInPrefix(a: Bytes, b: Bytes, i: nat)
    requires Find(a, i).Code?
    ensures Find(a + b, i) == Find(a, i)
  {
    var c := Find(a, i);
    FindIff(a, i, c);
    forall j: nat | j <= c.pos ensures CodeAt(a + b, j) == CodeAt(a, j) {
      CodeAtInPrefix(a, b, j);
    }
    FindIff(a + b, i, c);
  }

  // After a failed search of a, the search of a + b may restart three octets before the end of a.
  lemma FindAfterBackOff(a: Bytes, b: Bytes, i: nat, resume: nat)
    requires Find(a, i).NoCode?
    requires i <= resume && (resume == i || resume + 3 <= |a|)
    ensures Find(a + b, i) == Find(a + b, resume)
  {
    var c := Find(a + b, resume);
    FindIff(a, i, NoCode);
    FindIff(a + b, resume, c);
    forall j: nat | i <= j < resume ensures CodeAt(a + b, j) == CodeAt(a, j) {
      CodeAtInPrefix(a, b, j);
    }
    FindIff(a + b, i, c);
  }

  // Dropping k octets moves every start code at or after k by k.
  lemma FindInSuffix(s: Bytes, k: nat, i: nat)
    requires k + i <= |s|
    ensures var c := Find(s, k + i); Find(s[k..], i) == if c.Code? then Code(c.pos - k, c.len) else NoCode
  {
    var c := Find(s, k + i);
    FindIff(s, k + i, c);
    forall j: nat | i <= j < |s| - k ensures CodeAt(s[k..], j) == CodeAt(s, k + j) {}
    FindIff(s[k..], i, if c.Code? then Code(c.pos - k, c.len) else NoCode);
  }

  // ----- One step of the split -----

  lemma {:induction false} NonEmptyAppend(a: seq<Bytes>, b: seq<Bytes>)
    ensures NonEmpty(a + b) == NonEmpty(a) + NonEmpty(b)
  {
    if a == [] {
      EmptyPlus(b);
      EmptyPlus(NonEmpty(b));
    } else {
      NonEmptyAppend(a[1..], b);
      RestOfSum(a, b);
      Regroup([a[0]], NonEmpty(a[1..]), NonEmpty(b));
    }
  }

  lemma FindAtItself(s: Bytes, i: nat)
    requires Find(s, i).Code?
    ensures var c := Find(s, i); Find(s[c.pos..], 0) == Code(0, c.len)
  {
    var c := Find(s, i);
    FindIff(s, i, c);
    FindIff(s, c.pos, c);
    FindInSuffix(s, c.pos, 0);
  }

  // Skipping what precedes the first start code changes nothing.
  lemma NalsSkipNoise(s: Bytes)
    requires Find(s, 0).Code?
    ensures Nals(s[Find(s, 0).pos..]) == Nals(s)
  {
    hide Find, Pieces, NonEmpty;
    var c := Find(s, 0);
    FindAtItself(s, 0);
    DropTwice(s, c.pos, c.len);
  }

  lemma DropTwice<T>(s: seq<T>, i: nat, j: nat)
    requires i + j <= |s|
    ensures s[i..][j..] == s[i + j..]
  {}

  lemma TwoCodesSkipNoise(s: Bytes)
    requires Find(s, 0).Code?
    ensures HasTwoCodes(s[Find(s, 0).pos..]) == HasTwoCodes(s)
  {
    var c := Find(s, 0);
    hide Find;
    FindAtItself(s, 0);
    FindInSuffix(s, c.pos, c.len);
  }

  // s begins with a start code of n octets.
  predicate Aligned(s: Bytes, n: nat) {
    Find(s, 0) == Code(0, n)
  }

  lemma SplitStep(s: Bytes, n: nat)
    requires Aligned(s, n) && Find(s, n).Code?
    ensures var q := Find(s, n).pos; Split(s) == [s[n..q]] + Split(s[q..])
  {
    hide Find;
    var d := Find(s, n);
    var body := s[n..];
    FindInSuffix(s, n, 0);
    FindAtItself(s, n);
    var rest := body[d.pos - n + d.len..];
    assert Pieces(body) == [body[..d.pos - n]] + Pieces(rest);
    assert s[d.pos..][d.len..] == rest;
    assert body[..d.pos - n] == s[n..d.pos];
  }

  // With a start code in front and another at q, the first NAL stands between them and the
  // rest are the NALs of the stream that begins with the second start code.
  lemma NalsStep(s: Bytes, n: nat)
    requires Aligned(s, n) && Find(s, n).Code?
    ensures var q := Find(s, n).pos;
            Nals(s) == (if n < q then [s[n..q]] else []) + Nals(s[q..])
  {
    hide Find, Split;
    var q := Find(s, n).pos;
    SplitStep(s, n);
    NonEmptyAppend([s[n..q]], Split(s[q..]));
  }

  lemma NalsLast(s: Bytes, n: nat)
    requires Aligned(s, n) && Find(s, n).NoCode?
    ensures Nals(s) == if n < |s| then [s[n..]] else []
  {
    hide Find;
    FindInSuffix(s, n, 0);
    assert Split(s) == [s[n..]] + [];
    NonEmptyAppend([s[n..]], []);
  }

  lemma NalsOfNoise(s: Bytes)
    requires Find(s, 0).NoCode?
    ensures Nals(s) == [] && !HasTwoCodes(s)
  {}

  lemma NalsOfNothing()
    ensures Nals([]) == []
  {}

  // What step 1 of the reader keeps of a stream, and what step 2 decides about it.
  lemma AlignedStream(s: Bytes)
    requires Find(s, 0).Code?
    ensures var c := Find(s, 0);
            && Aligned(s[c.pos..], c.len) && Nals(s[c.pos..]) == Nals(s)
            && (HasTwoCodes(s) <==> Find(s[c.pos..], c.len).Code?)
  {
    FindAtItself(s, 0);
    NalsSkipNoise(s);
    TwoCodesSkipNoise(s);
  }

  // ----- One read of a stream -----

  // What a call of read_nal hands to the callback, and what it returns.
  datatype ReadCall = ReadCall(emitted: seq<Bytes>, ok: bool)

  // The callback is not called for an empty piece.
  function CalledBack(nal: Bytes): seq<Bytes> {
    if nal == [] then [] else [nal]
  }

  // The call on a whole unread stream, and what it leaves unread.
  function NextRead(s: Bytes): (ReadCall, Bytes) {
    match Find(s, 0)
    case NoCode => (ReadCall([], false), s)
    case Code(p, n) =>
      var t := s[p..];
      match Find(t, n)
      case NoCode => (ReadCall(CalledBack(t[n..]), false), [])
      case Code(q, _) => (ReadCall(CalledBack(t[n..q]), true), t[q..])
  }

  // Its cases, in terms of the stream from its first start code on.
  lemma NextReadCases(s: Bytes, t: Bytes)
    ensures Find(s, 0).NoCode? ==> NextRead(s) == (ReadCall([], false), s)
    ensures Find(s, 0).Code? && t == s[Find(s, 0).pos..] ==>
              var n, d := Find(s, 0).len, Find(t, Find(s, 0).len);
              if d.NoCode? then n <= |t| && NextRead(s) == (ReadCall(CalledBack(t[n..]), false), [])
              else n <= d.pos <= |t| && NextRead(s) == (ReadCall(CalledBack(t[n..d.pos]), true), t[d.pos..])
  {
    hide Find;
  }

  lemma CalledBackIs(nal: Bytes)
    ensures CalledBack(nal) == if |nal| > 0 then [nal] else []
  {}

  // It takes one NAL, or an empty piece, off the split, and succeeds exactly while there are
  // two start codes; then the stream gets shorter, otherwise nothing is left to be read.
  lemma NextReadTakes(s: Bytes)
    ensures var (call, rest) := NextRead(s);
            && Nals(s) == call.emitted + Nals(rest) && |call.emitted| <= 1
            && (call.ok <==> HasTwoCodes(s))
            && (if call.ok then |rest| < |s| else Nals(rest) == [])
  {
    hide Nals, HasTwoCodes, Find;
    var c := Find(s, 0);
    if c.NoCode? {
      NalsOfNoise(s);
    } else {
      AlignedStream(s);
      var t := s[c.pos..];
      var d := Find(t, c.len);
      if d.NoCode? {
        NalsLast(t, c.len);
        NalsOfNothing();
      } else {
        NalsStep(t, c.len);
      }
    }
  }

  lemma SplitSkipNoise(s: Bytes)
    requires Find(s, 0).Code?
    ensures Split(s[Find(s, 0).pos..]) == Split(s) && Split(s) != []
  {
    hide Find, Pieces;
    var c := Find(s, 0);
    FindAtItself(s, 0);
    PiecesThere(s[c.pos + c.len..]);
    DropTwice(s, c.pos, c.len);
  }

  lemma PiecesThere(body: Bytes)
    ensures Pieces(body) != []
  {}

  // A read takes the first piece of the split, and is true as long as another one follows.
  lemma ReadTakesPiece(s: Bytes)
    requires Split(s) != []
    ensures var (call, rest) := NextRead(s);
            && call.emitted == NonEmpty([Split(s)[0]]) && Split(rest) == Split(s)[1..]
            && (call.ok <==> |Split(s)| >= 2)
  {
    hide Find, Pieces;
    var c := Find(s, 0);
    var t := s[c.pos..];
    SplitSkipNoise(s);
    AlignedStream(s);
    NextReadCases(s, t);
    var d := Find(t, c.len);
    if d.Code? {
      SplitStep(t, c.len);
      FindAtItself(t, c.len);
      SplitSkipNoise(t[d.pos..]);
    } else {
      LastPiece(t, c.len);
      assert Split([]) == [] by { NothingSplits(); }
    }
  }

  lemma NoPieceRead(s: Bytes)
    requires Split(s) == []
    ensures NextRead(s).0 == ReadCall([], false)
  {
    hide Find, Pieces;
    if Find(s, 0).Code? {
      SplitSkipNoise(s);
    }
  }

  lemma LastPiece(s: Bytes, n: nat)
    requires Aligned(s, n) && Find(s, n).NoCode?
    ensures n <= |s| && Split(s) == [s[n..]]
  {
    hide Find;
    FindInSuffix(s, n, 0);
  }

  lemma NothingSplits()
    ensures Split([]) == []
  {}

  lemma TwoPieces(s: Bytes)
    ensures HasTwoCodes(s) <==> |Split(s)| >= 2
  {
    NextReadTakes(s);
    hide Pieces, Find;
    if Find(s, 0).Code? {
      SplitSkipNoise(s);
      ReadTakesPiece(s);
    }
  }

  // ----- The stream and the reader -----

  // A FILE*: octets that fread hands out from pos on, in chunks of a size it chooses.
  class File {
    const content: Bytes
    var pos: nat

    ghost predicate Valid() reads this { pos <= |content| }

    function Rest(): Bytes
      requires Valid()
      reads this
    {
      content[pos..]
    }

    constructor (content: Bytes)
      ensures Valid() && pos == 0 && this.content == content
    {
      this.content := content;
      pos := 0;
    }

    // fread: any non-empty chunk of at most cap octets, or nothing at the end of the stream.
    method Read(cap: nat) returns (chunk: Bytes)
      requires Valid() && cap > 0
      modifies this`pos
      ensures Valid()
      ensures old(Rest()) == chunk + Rest()
      ensures |chunk| <= cap && (chunk == [] <==> old(Rest()) == [])
    {
      if pos == |content| {
        chunk := [];
      } else {
        var n: nat :| 1 <= n <= cap && pos + n <= |content|;
        chunk := content[pos..pos + n];
        pos := pos + n;
      }
    }

    method Rewind()
      modifies this`pos
      ensures Valid() && Rest() == content
    {
      pos := 0;
    }
  }

  const READ_CHUNK_SIZE: nat := 4096

  class AnnexBReader {
    var buffer: Bytes

    constructor ()
      ensures buffer == []
    {
      buffer := [];
    }

    method Reset()
      modifies this
      ensures buffer == []
    {
      buffer := [];
    }

    // What the reader has still to turn into NALs: its buffer and everything fp will deliver.
    ghost function Unread(fp: File): Bytes
      requires fp.Valid()
      reads this, fp
    {
      buffer + fp.Rest()
    }

    // After a reset, everything is still in the file.
    lemma NothingBuffered(fp: File)
      requires fp.Valid() && buffer == []
      ensures Unread(fp) == fp.Rest()
    {}

    method FindStartCode(offset: nat) returns (c: StartCode)
      ensures c == Find(buffer, offset)
    {
      var i := offset;
      while i + 2 < |buffer|
        invariant offset <= i && Clear(buffer, offset, i)
      {
        if buffer[i] == 0 && buffer[i + 1] == 0 {
          if buffer[i + 2] == 1 {
            FindIff(buffer, offset, Code(i, CodeAt(buffer, i)));
            return Code(i, 3);
          }
          if i + 3 < |buffer| && buffer[i + 2] == 0 && buffer[i + 3] == 1 {
            FindIff(buffer, offset, Code(i, CodeAt(buffer, i)));
            return Code(i, 4);
          }
        }
        i := i + 1;
      }
      FindIff(buffer, offset, NoCode);
      return NoCode;
    }

    // The fill lambda: appends one chunk, or reports the end of the stream.
    method Fill(fp: File) returns (more: bool)
      requires fp.Valid()
      modifies this, fp`pos
      ensures fp.Valid() && Unread(fp) == old(Unread(fp))
      ensures more ==> |fp.Rest()| < |old(fp.Rest())| && old(buffer) <= buffer
      ensures !more ==> fp.Rest() == [] && buffer == old(buffer)
    {
      var chunk := fp.Read(READ_CHUNK_SIZE);
      more := chunk != [];
      buffer := buffer + chunk;
    }

    // Step 1: reads until the buffer holds a start code and drops what precedes it.
    method AlignBuffer(fp: File) returns (c: StartCode)
      requires fp.Valid()
      modifies this, fp`pos
      ensures fp.Valid()
      ensures c == Find(old(Unread(fp)), 0)
      ensures c.NoCode? ==> fp.Rest() == [] && Unread(fp) == old(Unread(fp))
      ensures c.Code? ==> Unread(fp) == old(Unread(fp))[c.pos..] && c.len <= |buffer|
    {
      c := FindStartCode(0);
      while c.NoCode?
        invariant fp.Valid() && Unread(fp) == old(Unread(fp)) && c == Find(buffer, 0)
        decreases |fp.Rest()|
      {
        var more := Fill(fp);
        if !more {
          assert buffer == Unread(fp);
          return NoCode;
        }
        c := FindStartCode(0);
      }
      FindInPrefix(buffer, fp.Rest(), 0);
      if c.pos > 0 {
        buffer := buffer[c.pos..];
      }
    }

    // Step 2: reads until the buffer holds a start code at or after nalStart. Each new search
    // backs off three octets, for the start code that a chunk boundary cut in two.
    method FindNalEnd(fp: File, nalStart: nat) returns (d: StartCode)
      requires fp.Valid() && nalStart <= |buffer|
      modifies this, fp`pos
      ensures fp.Valid() && Unread(fp) == old(Unread(fp))
      ensures d == Find(Unread(fp), nalStart)
      ensures if d.NoCode? then fp.Rest() == [] else d.pos <= |buffer|
    {
      var scan := nalStart;
      d := FindStartCode(scan);
      while d.NoCode?
        invariant fp.Valid() && Unread(fp) == old(Unread(fp))
        invariant nalStart <= scan
        invariant d == Find(buffer, scan) == Find(buffer, nalStart)
        decreases |fp.Rest()|
      {
        var resume := if |buffer| >= 3 then |buffer| - 3 else nalStart;
        if resume < nalStart {
          resume := nalStart;
        }
        ghost var before := buffer;
        var more := Fill(fp);
        if !more {
          assert buffer == Unread(fp);
          return NoCode;
        }
        assert buffer == before + buffer[|before|..];
        FindAfterBackOff(before, buffer[|before|..], nalStart, resume);
        scan := resume;
        d := FindStartCode(scan);
      }
      FindInPrefix(buffer, fp.Rest(), nalStart);
    }

    lemma UnreadIs(fp: File)
      requires fp.Valid()
      ensures Unread(fp) == buffer + fp.Rest()
    {}

    lemma NothingLeft(fp: File)
      requires fp.Valid() && fp.Rest() == []
      ensures Unread(fp) == buffer
    {}

    lemma BufferIsFront(fp: File, i: nat, j: nat)
      requires fp.Valid() && i <= j <= |buffer|
      ensures j <= |Unread(fp)| && buffer[i..j] == Unread(fp)[i..j] && buffer[j..] + fp.Rest() == Unread(fp)[j..]
    {}

    // Whatever the chunks, the call does what NextRead says about the whole unread stream:
    // emitted is what the callback receives.
    method ReadNal(fp: File) returns (ok: bool, emitted: seq<Bytes>)
      requires fp.Valid()
      modifies this, fp`pos
      ensures fp.Valid() && (ReadCall(emitted, ok), Unread(fp)) == NextRead(old(Unread(fp)))
      ensures !ok ==> fp.Rest() == []
    {
      hide *;
      ghost var stream := Unread(fp);
      var c := AlignBuffer(fp);
      ghost var aligned := Unread(fp);
      NextReadCases(stream, aligned);
      if c.NoCode? {
        return false, [];
      }

      var nalStart := c.len;
      var d := FindNalEnd(fp, nalStart);
      if d.NoCode? {
        NothingLeft(fp);
        CalledBackIs(buffer[nalStart..]);
        emitted := if |buffer| - nalStart > 0 then [buffer[nalStart..]] else [];
        buffer := [];
        NothingLeft(fp);
        return false, emitted;
      }
      BufferIsFront(fp, nalStart, d.pos);
      CalledBackIs(buffer[nalStart..d.pos]);
      emitted := if d.pos - nalStart > 0 then [buffer[nalStart..d.pos]] else [];
      buffer := buffer[d.pos..];
      UnreadIs(fp);
      return true, emitted;
    }

    // Calling ReadNal until it fails delivers the NALs of the whole stream, no more and no less.
    method ReadAll(fp: File) returns (nals: seq<Bytes>)
      requires fp.Valid()
      modifies this, fp`pos
      ensures fp.Valid() && nals == Nals(old(Unread(fp)))
    {
      hide Nals, NextRead, HasTwoCodes;
      nals := [];
      var ok := true;
      while ok
        invariant fp.Valid() && nals + Nals(Unread(fp)) == Nals(old(Unread(fp)))
        invariant !ok ==> Nals(Unread(fp)) == []
        decreases ok, |Unread(fp)|
      {
        NextReadTakes(Unread(fp));
        var one;
        ok, one := ReadNal(fp);
        nals := nals + one;
      }
    }
  }

  // ----- Writing Annex-B and reading it back -----

  // What section 7.4.1 of ITU-T H.264 guarantees of a NAL unit: it is not empty, has no start
  // code inside and does not end in a zero octet.
  predicate WellFormed(nal: Bytes) {
    && nal != [] && nal[|nal| - 1] != 0
    && forall i: nat :: i + 2 < |nal| ==> !(nal[i] == 0 && nal[i + 1] == 0 && nal[i + 2] == 1)
  }

  function Prefix(long: bool): Bytes {
    if long then [0, 0, 0, 1] else [0, 0, 1]
  }

  // Each NAL behind a start code of either length.
  function Frame(nals: seq<Bytes>, long: seq<bool>): Bytes
    requires |long| == |nals|
  {
    if nals == [] then [] else Prefix(long[0]) + nals[0] + Frame(nals[1..], long[1..])
  }

  lemma NoCodeInNal(nal: Bytes, rest: Bytes, j: nat)
    requires WellFormed(nal) && j < |nal|
    ensures CodeAt(nal + rest, j) == 0
  {
    assert (nal + rest)[|nal| - 1] == nal[|nal| - 1];
    assert j + 2 < |nal| ==> (nal + rest)[j + 2] == nal[j + 2];
    assert j + 3 < |nal| ==> (nal + rest)[j + 3] == nal[j + 3];
  }

  // Behind a well-formed NAL the first start code is the one that follows it.
  lemma FindBehindNal(nal: Bytes, rest: Bytes)
    requires WellFormed(nal) && (rest == [] || CodeAt(rest, 0) != 0)
    ensures Find(nal + rest, 0) == if rest == [] then NoCode else Code(|nal|, CodeAt(rest, 0))
  {
    var s := nal + rest;
    forall j: nat | j < |nal| ensures CodeAt(s, j) == 0 {
      NoCodeInNal(nal, rest, j);
    }
    if rest == [] {
      FindIff(s, 0, NoCode);
    } else {
      CodeAtShifted(nal, rest);
      FindIff(s, 0, Code(|nal|, CodeAt(rest, 0)));
    }
  }

  lemma CodeAtShifted(a: Bytes, b: Bytes)
    ensures CodeAt(a + b, |a|) == CodeAt(b, 0)
  {
    assert forall k :: 0 <= k < |b| ==> (a + b)[|a| + k] == b[k];
  }

  lemma FrameStep(long: bool, pieces: seq<Bytes>, longs: seq<bool>)
    requires |pieces| == |longs| + 1
    ensures Frame(pieces, [long] + longs) == Prefix(long) + (pieces[0] + Frame(pieces[1..], longs))
  {
    assert ([long] + longs)[1..] == longs;
  }

  lemma CodeAtPrefix(long: bool, rest: Bytes)
    ensures CodeAt(Prefix(long) + rest, 0) == |Prefix(long)|
  {}

  lemma {:induction false} PiecesOfFrame(nal: Bytes, nals: seq<Bytes>, long: seq<bool>)
    requires |long| == |nals| && WellFormed(nal) && forall x :: x in nals ==> WellFormed(x)
    ensures Pieces(nal + Frame(nals, long)) == [nal] + nals
    decreases nals
  {
    var rest := Frame(nals, long);
    if nals == [] {
      FindBehindNal(nal, rest);
      assert nal + rest == nal;
    } else {
      var tail := nals[0] + Frame(nals[1..], long[1..]);
      assert [long[0]] + long[1..] == long;
      FrameStep(long[0], nals, long[1..]);
      CodeAtPrefix(long[0], tail);
      FindBehindNal(nal, rest);
      PiecesOfFrame(nals[0], nals[1..], long[1..]);
      FrontAndBack(nal, Prefix(long[0]), tail);
      PiecesCons(nal + rest, |nal|, |Prefix(long[0])|, nal, tail);
      assert [nals[0]] + nals[1..] == nals;
      hide *;
      assert rest == Prefix(long[0]) + tail;
    }
  }

  lemma PiecesCons(body: Bytes, q: nat, n: nat, nal: Bytes, tail: Bytes)
    requires Find(body, 0) == Code(q, n) && n > 0 && q + n <= |body|
    requires body[..q] == nal && body[q + n..] == tail
    ensures Pieces(body) == [nal] + Pieces(tail)
  {
    hide Find;
  }

  lemma FrontAndBack<T>(a: seq<T>, b: seq<T>, c: seq<T>)
    ensures (a + (b + c))[..|a|] == a && (a + (b + c))[|a| + |b|..] == c
  {}

  lemma NonEmptyKeeps(pieces: seq<Bytes>)
    requires [] !in pieces
    ensures NonEmpty(pieces) == pieces
  {}

  // Round trip: the NALs of a framed list are that list, for any mix of start-code lengths.
  lemma NalsOfFrame(nals: seq<Bytes>, long: seq<bool>)
    requires |long| == |nals| && forall x :: x in nals ==> WellFormed(x)
    ensures Nals(Frame(nals, long)) == nals
  {
    if nals != [] {
      var tail := nals[0] + Frame(nals[1..], long[1..]);
      assert [long[0]] + long[1..] == long;
      FrameStep(long[0], nals, long[1..]);
      CodeAtPrefix(long[0], tail);
      FindIff(Frame(nals, long), 0, Code(0, |Prefix(long[0])|));
      hide Find, CodeAt, Frame, WellFormed;
      PiecesOfFrame(nals[0], nals[1..], long[1..]);
      assert Frame(nals, long)[|Prefix(long[0])|..] == tail;
      assert [nals[0]] + nals[1..] == nals;
      NonEmptyKeeps(nals);
    }
  }

  // ----- The split loses nothing -----

  // Which start codes Pieces skipped: true for the four-octet ones.
  function Skipped(body: Bytes): seq<bool>
    decreases |body|
  {
    match Find(body, 0)
    case NoCode => []
    case Code(q, n) => [n == 4] + Skipped(body[q + n..])
  }

  lemma CodeIsPrefix(s: Bytes, i: nat)
    requires CodeAt(s, i) != 0
    ensures s[i..i + CodeAt(s, i)] == Prefix(CodeAt(s, i) == 4)
  {}

  lemma NoCodeBefore(s: Bytes, p: nat)
    requires p <= |s| && Clear(s, 0, p)
    ensures Find(s[..p], 0) == NoCode
  {
    forall j: nat | j < p ensures CodeAt(s[..p], j) == 0 {
      if CodeAt(s[..p], j) != 0 {
        assert s == s[..p] + s[p..];
        CodeAtInPrefix(s[..p], s[p..], j);
      }
    }
    FindIff(s[..p], 0, NoCode);
  }

  // The pieces with the start codes put back between them.
  function Rejoin(pieces: seq<Bytes>, long: seq<bool>): Bytes
    requires |pieces| == |long| + 1
  {
    if long == [] then pieces[0] else pieces[0] + (Prefix(long[0]) + Rejoin(pieces[1..], long[1..]))
  }

  lemma RejoinUnfold(piece: Bytes, pieces: seq<Bytes>, long: bool, longs: seq<bool>)
    requires |pieces| == |longs| + 1
    ensures Rejoin([piece] + pieces, [long] + longs) == piece + (Prefix(long) + Rejoin(pieces, longs))
  {
    assert ([piece] + pieces)[1..] == pieces && ([long] + longs)[1..] == longs;
  }

  lemma PiecesUnfold(body: Bytes)
    requires Find(body, 0).Code?
    ensures var c := Find(body, 0);
            var rest := body[c.pos + c.len..];
            && Pieces(body) == [body[..c.pos]] + Pieces(rest)
            && Skipped(body) == [c.len == 4] + Skipped(rest)
            && Prefix(c.len == 4) == body[c.pos..c.pos + c.len]
  {
    var c := Find(body, 0);
    FindIff(body, 0, c);
    CodeIsPrefix(body, c.pos);
  }

  lemma PiecesOfClear(body: Bytes)
    requires Find(body, 0).NoCode?
    ensures Pieces(body) == [body] && Skipped(body) == [] && Rejoin([body], []) == body
  {}

  // Putting the skipped start codes back between the pieces gives the stream back, octet for
  // octet.
  lemma {:induction false} PiecesReassemble(body: Bytes)
    ensures |Skipped(body)| + 1 == |Pieces(body)|
    ensures Rejoin(Pieces(body), Skipped(body)) == body
    decreases |body|
  {
    hide *;
    var c := Find(body, 0);
    if c.Code? {
      var rest := body[c.pos + c.len..];
      PiecesUnfold(body);
      PiecesReassemble(rest);
      RejoinUnfold(body[..c.pos], Pieces(rest), c.len == 4, Skipped(rest));
      CutInThree(body, c.pos, c.pos + c.len);
    } else {
      PiecesOfClear(body);
    }
  }

  // No piece of the split still holds a start code.
  lemma {:induction false} PiecesHoldNoCode(body: Bytes, k: nat)
    requires k < |Pieces(body)|
    ensures Find(Pieces(body)[k], 0) == NoCode
    decreases |body|
  {
    var c := Find(body, 0);
    if c.Code? {
      FindIff(body, 0, c);
      NoCodeBefore(body, c.pos);
      hide Find, CodeAt;
      if k > 0 {
        PiecesHoldNoCode(body[c.pos + c.len..], k - 1);
      }
    }
  }
}
