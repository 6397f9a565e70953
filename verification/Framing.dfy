// How a byte stream is cut into requests (the loop of feed in src/rtsp/session.cpp).
module Framing {
  import opened Prelude
  import opened Text
  import Parser

  // The complete requests of a stream, each with its empty line, and the unfinished rest.
  datatype Cut = Cut(requests: seq<string>, rest: string)

  function CutAll(stream: string): Cut
    decreases |stream|
  {
    var end := Search(stream, END, 0);
    SearchIff(stream, END, 0, end);
    if end.None? then Cut([], stream)
    else
      var n := end.value + |END|;
      var more := CutAll(stream[n..]);
      Cut([stream[..n]] + more.requests, more.rest)
  }

  predicate IsRequest(s: string) {
    |s| >= |END| && Search(s, END, 0) == Some(|s| - |END|)
  }

  lemma RequestThen(r: string, s: string)
    requires IsRequest(r)
    ensures CutAll(r + s) == Cut([r] + CutAll(s).requests, CutAll(s).rest)
  {
    hide Search;
    SearchInPrefix(r, s, END, 0);
    assert (r + s)[..|r|] == r && (r + s)[|r|..] == s;
  }

  lemma CutUnfold(stream: string)
    ensures var end := Search(stream, END, 0);
            if end.None? then CutAll(stream) == Cut([], stream)
            else
              && end.value + |END| <= |stream| && IsRequest(stream[..end.value + |END|])
              && CutAll(stream) == Cut([stream[..end.value + |END|]] + CutAll(stream[end.value + |END|..]).requests,
                                       CutAll(stream[end.value + |END|..]).rest)
  {
    var end := Search(stream, END, 0);
    SearchIff(stream, END, 0, end);
    if end.Some? {
      var n := end.value + |END|;
      assert StartsAt(stream, end.value, END);
      AtInPrefix(stream, n, end.value);
      forall j | 0 <= j < end.value ensures !StartsAt(stream[..n], j, END) {
        AtInPrefix(stream, n, j);
      }
      SearchIff(stream[..n], END, 0, Some(end.value));
    }
  }

  lemma AtInPrefix(s: string, n: nat, j: nat)
    requires n <= |s| && j + |END| <= n
    ensures StartsAt(s[..n], j, END) == StartsAt(s, j, END)
  {
    assert s[..n][j..j + |END|] == s[j..j + |END|];
  }

  // Nothing is lost or invented, every request ends at its first empty line, and the rest
  // holds none.
  lemma {:induction false} CutIsPartition(stream: string)
    ensures var c := CutAll(stream);
            && Flatten(c.requests) + c.rest == stream && Search(c.rest, END, 0).None?
            && forall i :: 0 <= i < |c.requests| ==> IsRequest(c.requests[i])
    decreases |stream|
  {
    hide Search, IsRequest;
    CutUnfold(stream);
    var end := Search(stream, END, 0);
    if end.Some? {
      var n := end.value + |END|;
      assert stream == stream[..n] + stream[n..];
      CutIsPartition(stream[n..]);
      var more := CutAll(stream[n..]);
      assert stream[..n] + (Flatten(more.requests) + more.rest) == (stream[..n] + Flatten(more.requests)) + more.rest;
      assert ([stream[..n]] + more.requests)[1..] == more.requests;
    } else {
      assert Flatten<char>([]) + stream == stream;
    }
  }

  // And that is the only way to cut it.
  lemma {:induction false} CutIsOnly(requests: seq<string>, rest: string)
    requires Search(rest, END, 0).None?
    requires forall i :: 0 <= i < |requests| ==> IsRequest(requests[i])
    ensures CutAll(Flatten(requests) + rest) == Cut(requests, rest)
  {
    hide Search, IsRequest;
    if requests == [] {
      assert Flatten(requests) + rest == rest;
      CutUnfold(rest);
    } else {
      CutIsOnly(requests[1..], rest);
      RequestThen(requests[0], Flatten(requests[1..]) + rest);
      assert Flatten(requests) + rest == requests[0] + (Flatten(requests[1..]) + rest);
      assert [requests[0]] + requests[1..] == requests;
    }
  }

  // Cutting what has arrived, and then what was left with what arrives later, gives the same
  // as cutting everything at once.
  lemma {:induction false} CutAppend(a: string, b: string)
    ensures var c, d := CutAll(a), CutAll(CutAll(a).rest + b);
            CutAll(a + b) == Cut(c.requests + d.requests, d.rest)
    decreases |a|
  {
    hide *;
    CutUnfold(a);
    var end := Search(a, END, 0);
    if end.Some? {
      var n := end.value + |END|;
      var r, s := a[..n], a[n..];
      assert a == r + s && |s| < |a|;
      CutAppend(s, b);
      RequestThen(r, s + b);
      Regroup(r, s, b);
      Regroup([r], CutAll(s).requests, CutAll(CutAll(s).rest + b).requests);
    } else {
      EmptyPlus(CutAll(a + b).requests);
    }
  }

  predicate Within(s: string, limit: nat) {
    var c := CutAll(s);
    |c.rest| <= limit && forall i :: 0 <= i < |c.requests| ==> |c.requests[i]| <= limit
  }

  // If no request of a stream is longer than the limit, nor what is left of it, then at no
  // earlier time was what was left as long as that.
  lemma PrefixIsWithin(a: string, b: string, limit: nat)
    requires Within(a + b, limit)
    ensures Within(a, limit) && (b != "" ==> |CutAll(a).rest| < limit)
  {
    hide Search, IsRequest;
    CutAppend(a, b);
    var c, all := CutAll(a), CutAll(a + b);
    var d := CutAll(c.rest + b);
    forall i | 0 <= i < |c.requests| ensures |c.requests[i]| <= limit {
      assert c.requests[i] == all.requests[i];
    }
    CutUnfold(c.rest + b);
    CutIsPartition(a);
    if d.requests != [] {
      var n := |d.requests[0]|;
      assert d.requests[0] == all.requests[|c.requests|];
      NoEndInside(c.rest, b, n);
    }
  }

  lemma NoEndInside(a: string, b: string, n: nat)
    requires Search(a, END, 0).None? && Search(a + b, END, 0).Some? && n == Search(a + b, END, 0).value + |END|
    ensures n > |a|
  {
    var k := Search(a + b, END, 0).value;
    SearchIff(a + b, END, 0, Some(k));
    SearchIff(a, END, 0, None);
    assert (a + b)[..|a|] == a;
    if n <= |a| {
      AtInPrefix(a + b, |a|, k);
    }
  }

  // A printed request is cut out whole.
  lemma PrintedIsRequest(token: string, r: Parser.Request)
    requires Parser.Word(token) && Parser.Word(r.uri) && Parser.GoodFields(r.headers)
    ensures IsRequest(Parser.Render(token, r))
  {
    hide Search, OneLine, Parser.ParseLine, Parser.FieldLine, Parser.GoodField, Parser.RequestLine;
    var lines := [Parser.RequestLine(token, r.uri)] + Parser.FieldLines(r.headers);
    Parser.ParsePrintedLine(token, r.uri);
    FieldLinesAreLines(r.headers);
    assert lines[1..] == Parser.FieldLines(r.headers);
    assert Parser.Render(token, r) == Head(lines) + "";
    RequestLineNotEmpty(token, r.uri);
    HeadEnd(lines, "");
    assert Head(lines) + "" == Head(lines);
  }

  lemma RequestLineNotEmpty(token: string, uri: string)
    ensures Parser.RequestLine(token, uri) != ""
  {}

  lemma FieldLinesAreLines(fields: seq<Parser.Field>)
    requires forall i :: 0 <= i < |fields| ==> Parser.GoodField(fields[i])
    ensures AllLines(Parser.FieldLines(fields))
  {
    hide OneLine, Parser.FieldLine, Parser.GoodField;
    if fields != [] {
      Parser.FieldLineIsLine(fields[0]);
      FieldLinesAreLines(fields[1..]);
    }
  }
}
