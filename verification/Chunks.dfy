// It does not matter how the connection cuts the requests into reads.
module Chunks {
  import opened Prelude
  import opened Text
  import opened Framing
  import P = Protocol
  import opened Sessions

  const CHUNK := 4096
  const LIMIT := 61441

  // Fed one read after the other, until the session stops listening.
  function FeedAll(x: Conn, chunks: seq<string>, oracle: P.Oracle, hub: bool): Conn
    decreases |chunks|
  {
    if chunks == [] then x
    else
      var y := FeedAll(x, chunks[..|chunks| - 1], oracle, hub);
      if y.verdict.Open? then FeedSpec(y, chunks[|chunks| - 1], oracle, hub) else y
  }

  predicate Small(chunks: seq<string>) {
    forall i :: 0 <= i < |chunks| ==> |chunks[i]| <= CHUNK
  }

  // A session on which nothing was received yet.
  function Fresh(c: P.Core, k: nat): Conn {
    Conn(c, "", k, [], P.Open)
  }

  // What serving all requests of a stream at once gives.
  ghost predicate IsServed(y: Conn, c: P.Core, k: nat, stream: string, oracle: P.Oracle, hub: bool) {
    var s := P.Serve(c, CutAll(stream).requests, k, oracle, hub);
    && y.core == s.core && y.sent == s.responses && y.served == k + s.count && y.verdict == s.verdict
    && (y.verdict.Open? ==> y.buffer == CutAll(stream).rest)
  }

  lemma FlattenLast(chunks: seq<string>)
    requires chunks != []
    ensures Flatten(chunks) == Flatten(chunks[..|chunks| - 1]) + chunks[|chunks| - 1]
  {
    var n := |chunks| - 1;
    FlattenAppend(chunks[..n], [chunks[n]]);
    assert chunks == chunks[..n] + [chunks[n]];
    assert Flatten([chunks[n]]) == chunks[n] + Flatten<char>([]);
  }

  // Before read i the session still listens, and with it more is buffered than is allowed.
  predicate OverflowsAt(c: P.Core, k: nat, chunks: seq<string>, i: nat, oracle: P.Oracle, hub: bool)
    requires i < |chunks|
  {
    var cut := CutAll(Flatten(chunks[..i]));
    P.Serve(c, cut.requests, k, oracle, hub).verdict.Open? && |cut.rest| + |chunks[i]| > MAX_RX_BUFFER
  }

  ghost predicate OverflowsSomewhere(c: P.Core, k: nat, chunks: seq<string>, oracle: P.Oracle, hub: bool) {
    exists i :: 0 <= i < |chunks| && OverflowsAt(c, k, chunks, i, oracle, hub)
  }

  // Fed read by read, whatever the reads and the requests, the buffer overflows if and only if
  // at one of the reads what the one-shot cut leaves of the stream so far and the read together
  // are longer than it, and the session has not ended by then. In every other case feeding read
  // by read gives the same responses, state, id and ports as serving the stream cut at once.
  lemma {:induction false} OverflowIff(c: P.Core, k: nat, chunks: seq<string>, oracle: P.Oracle, hub: bool)
    ensures var y := FeedAll(Fresh(c, k), chunks, oracle, hub);
            && (y.verdict.Overflow? <==> OverflowsSomewhere(c, k, chunks, oracle, hub))
            && (!y.verdict.Overflow? ==> IsServed(y, c, k, Flatten(chunks), oracle, hub))
    decreases |chunks|
  {
    hide FeedSpec, IsServed, OverflowsAt, P.Serve, CutAll;
    if chunks == [] {
      NothingServed(c, k, oracle, hub);
    } else {
      var n := |chunks| - 1;
      OverflowIff(c, k, chunks[..n], oracle, hub);
      forall i | 0 <= i < n
        ensures OverflowsAt(c, k, chunks, i, oracle, hub) == OverflowsAt(c, k, chunks[..n], i, oracle, hub)
      {
        OverflowsInPrefix(c, k, chunks, n, i, oracle, hub);
      }
      FlattenLast(chunks);
      var y := FeedAll(Fresh(c, k), chunks[..n], oracle, hub);
      if !y.verdict.Overflow? {
        OneMoreChunk(y, c, k, Flatten(chunks[..n]), chunks[n], oracle, hub);
        OverflowsNow(y, c, k, chunks, oracle, hub);
      }
    }
  }

  lemma OverflowsNow(y: Conn, c: P.Core, k: nat, chunks: seq<string>, oracle: P.Oracle, hub: bool)
    requires chunks != [] && IsServed(y, c, k, Flatten(chunks[..|chunks| - 1]), oracle, hub)
    ensures OverflowsAt(c, k, chunks, |chunks| - 1, oracle, hub) <==>
              && y.verdict.Open?
              && |CutAll(Flatten(chunks[..|chunks| - 1])).rest| + |chunks[|chunks| - 1]| > MAX_RX_BUFFER
  {
    hide CutAll, P.Serve, Flatten;
  }

  lemma OverflowsInPrefix(c: P.Core, k: nat, chunks: seq<string>, n: nat, i: nat, oracle: P.Oracle, hub: bool)
    requires i < n <= |chunks|
    ensures OverflowsAt(c, k, chunks, i, oracle, hub) == OverflowsAt(c, k, chunks[..n], i, oracle, hub)
  {
    assert chunks[..n][..i] == chunks[..i];
  }

  // As long as no request of the stream and no unfinished rest is longer than 61441 and no
  // read longer than 4096, the buffer never overflows, and feeding read by read gives what
  // serving the stream cut at once gives.
  lemma ChunkIndependence(c: P.Core, k: nat, chunks: seq<string>, oracle: P.Oracle, hub: bool)
    requires Small(chunks) && Within(Flatten(chunks), LIMIT)
    ensures IsServed(FeedAll(Fresh(c, k), chunks, oracle, hub), c, k, Flatten(chunks), oracle, hub)
    ensures !FeedAll(Fresh(c, k), chunks, oracle, hub).verdict.Overflow?
  {
    hide IsServed, Within, FeedAll, P.Serve, CutAll;
    OverflowIff(c, k, chunks, oracle, hub);
    forall i | 0 <= i < |chunks| ensures !OverflowsAt(c, k, chunks, i, oracle, hub) {
      SplitAt(chunks, i);
      PrefixIsWithin(Flatten(chunks[..i]), Flatten(chunks[i..]), LIMIT);
      WithinRest(Flatten(chunks[..i]), LIMIT);
    }
  }

  lemma SplitAt(chunks: seq<string>, i: nat)
    requires i < |chunks|
    ensures Flatten(chunks) == Flatten(chunks[..i]) + Flatten(chunks[i..])
    ensures chunks[i] != "" ==> Flatten(chunks[i..]) != ""
  {
    assert chunks == chunks[..i] + chunks[i..];
    FlattenAppend(chunks[..i], chunks[i..]);
  }

  lemma WithinRest(s: string, limit: nat)
    requires Within(s, limit)
    ensures |CutAll(s).rest| <= limit
  {}

  lemma NothingServed(c: P.Core, k: nat, oracle: P.Oracle, hub: bool)
    ensures IsServed(Fresh(c, k), c, k, Flatten<char>([]), oracle, hub)
  {}

  lemma OneMoreChunk(y: Conn, c: P.Core, k: nat, before: string, chunk: string, oracle: P.Oracle, hub: bool)
    requires IsServed(y, c, k, before, oracle, hub) && !y.verdict.Overflow?
    ensures var z := if y.verdict.Open? then FeedSpec(y, chunk, oracle, hub) else y;
            && (z.verdict.Overflow? <==> y.verdict.Open? && |CutAll(before).rest| + |chunk| > MAX_RX_BUFFER)
            && (!z.verdict.Overflow? ==> IsServed(z, c, k, before + chunk, oracle, hub))
  {
    hide CutAll, P.Serve, P.HandleRaw, P.Followed, Flatten;
    CutAppend(before, chunk);
    var first, more := CutAll(before), CutAll(CutAll(before).rest + chunk);
    var s := P.Serve(c, first.requests, k, oracle, hub);
    P.ServeAppend(c, first.requests, more.requests, k, oracle, hub);
    ServeNeverOverflows(c, first.requests, k, oracle, hub);
    if y.verdict.Open? {
      var t := P.Serve(s.core, more.requests, k + s.count, oracle, hub);
      ServeNeverOverflows(s.core, more.requests, k + s.count, oracle, hub);
      assert more.requests[|more.requests|..] == [];
      FlattenNothing(more.rest);
      FollowedIs(s, t);
    }
  }

  lemma FollowedIs(s: P.Served, t: P.Served)
    ensures P.Followed(s, t) == P.Served(t.core, s.responses + t.responses, s.count + t.count, t.verdict)
  {}

  lemma FlattenNothing(s: string)
    ensures Flatten<char>([]) + s == s
  {}

  lemma {:induction false} ServeNeverOverflows(c: P.Core, requests: seq<string>, k: nat, oracle: P.Oracle, hub: bool)
    ensures !P.Serve(c, requests, k, oracle, hub).verdict.Overflow?
    decreases |requests|
  {
    P.ServeUnfold(c, requests, k, oracle, hub);
    hide P.Serve, P.Handle;
    if requests != [] {
      var t := P.HandleRaw(c, requests[0], oracle(k), hub);
      ServeNeverOverflows(t.core, requests[1..], k + 1, oracle, hub);
    }
  }

  // After every feed the requests taken and what is buffered are what was buffered and what
  // came; and while the session listens, no complete request is left in the buffer.
  lemma FeedKeepsText(x: Conn, data: string, oracle: P.Oracle, hub: bool)
    requires x.verdict.Open?
    ensures var y := FeedSpec(x, data, oracle, hub);
            var n := y.served - x.served;
            && 0 <= n <= |CutAll(x.buffer + data).requests|
            && Flatten(CutAll(x.buffer + data).requests[..n]) + y.buffer == x.buffer + data
            && (y.verdict.Open? ==> Search(y.buffer, END, 0).None?)
  {
    hide P.HandleRaw, Search, P.Serve, CutAll, Flatten;
    var all := x.buffer + data;
    CutIsPartition(all);
    var cut := CutAll(all);
    FlattenNothing(all);
    FlattenNothing(cut.rest);
    var n := if |all| > MAX_RX_BUFFER then 0 else P.Serve(x.core, cut.requests, x.served, oracle, hub).count;
    SplitFlatten(cut.requests, n, cut.rest);
    assert cut.requests[..0] == [] && cut.requests[|cut.requests|..] == [];
  }

  lemma SplitFlatten(list: seq<string>, n: nat, rest: string)
    requires n <= |list|
    ensures Flatten(list[..n]) + (Flatten(list[n..]) + rest) == Flatten(list) + rest
  {
    hide Flatten;
    assert list == list[..n] + list[n..];
    FlattenAppend(list[..n], list[n..]);
    Regroup(Flatten(list[..n]), Flatten(list[n..]), rest);
  }
}
