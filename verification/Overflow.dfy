// A stream with one request that is a character longer than ChunkIndependence allows, and reads
// of it at which the session gives up before it has answered the request.
module Overflow {
  import opened Prelude
  import opened Text
  import opened Parser
  import R = Responses
  import P = Protocol
  import Client
  import opened Framing
  import opened Sessions
  import opened Chunks

  function Pad(n: nat): string {
    seq(n, _ => 'x')
  }

  function Padded(n: nat): Request {
    Request(Options, "*", 1, [Field("CSeq", Decimal(1)), Field("X-Pad", Pad(n))])
  }

  // An OPTIONS request of n + 40 characters.
  function LongRequest(n: nat): string {
    Render("OPTIONS", Padded(n))
  }

  lemma RequestLength(n: nat)
    ensures |LongRequest(n)| == n + 40
  {
    assert Decimal(1) == "1";
    var fields := Padded(n).headers;
    assert FieldLines(fields) == [FieldLine(fields[0]), FieldLine(fields[1])] by {
      assert FieldLines(fields[1..]) == [FieldLine(fields[1])] + FieldLines(fields[2..]);
    }
    hide FieldLines;
    var lines := FieldLines(fields);
    assert |lines[0]| == 7 && |lines[1]| == 7 + n;
    assert |Head(lines[2..])| == 2;
    assert |Head(lines[1..])| == |lines[1]| + 4;
    assert |Head(lines)| == |lines[0]| + |lines[1]| + 6;
    assert |RequestLine("OPTIONS", "*")| == 18;
  }

  lemma PadIsPlain(n: nat)
    ensures Client.Plain(Pad(n)) && Trimmed(Pad(n)) && OneLine(Pad(n)) && Search(Pad(n), END, 0).None?
  {
    hide Search, StartsAt;
    Client.PlainIsLine(Pad(n));
    forall j: nat | j <= n ensures !StartsAt(Pad(n), j, END) {
      DiffersAt(Pad(n), j, END, 0);
    }
    SearchIff(Pad(n), END, 0, None);
  }

  lemma FieldsAreGood(n: nat)
    ensures GoodFields(Padded(n).headers) && CSeqOf(Padded(n).headers) == Some(1)
  {
    hide GoodField, Decimal, CSeqOf, OneLine, Trimmed, Pad;
    PadIsPlain(n);
    assert Client.Plain("X-Pad") && Client.NoColon("X-Pad");
    assert Trimmed("X-Pad") by { NameIsTrimmed(); }
    assert Trimmed("CSeq") by { NameIsTrimmed(); }
    Client.NamedField("X-Pad", Pad(n));
    Client.DecimalField("CSeq", 1);
    assert EqualFold("CSeq", "CSeq");
    CSeqOfPrinted(Padded(n).headers, 0, 1);
  }

  lemma NameIsTrimmed()
    ensures Trimmed("X-Pad") && Trimmed("CSeq")
  {}

  lemma OptionsIsOptions()
    ensures Names("OPTIONS", Options) && Word("OPTIONS") && Word("*")
  {
    Client.PlainWord("OPTIONS");
    Client.PlainWord("*");
  }

  lemma RequestParses(n: nat)
    ensures Parse(LongRequest(n)) == Parsed(Padded(n)) && IsRequest(LongRequest(n))
  {
    hide GoodFields, CSeqOf, Parse, IsRequest, Render, Names, Word, Decimal, Pad;
    FieldsAreGood(n);
    OptionsIsOptions();
    ParsePrinted("OPTIONS", Padded(n));
    PrintedIsRequest("OPTIONS", Padded(n));
  }

  // ----- The reads -----

  function FullReads(s: string, n: nat): seq<string>
    requires n * CHUNK <= |s|
  {
    if n == 0 then [] else FullReads(s, n - 1) + [s[(n - 1) * CHUNK..n * CHUNK]]
  }

  lemma {:induction false} FullReadsJoin(s: string, n: nat)
    requires n * CHUNK <= |s|
    ensures |FullReads(s, n)| == n && Flatten(FullReads(s, n)) == s[..n * CHUNK] && Small(FullReads(s, n))
  {
    if n > 0 {
      FullReadsJoin(s, n - 1);
      FlattenAppend(FullReads(s, n - 1), [s[(n - 1) * CHUNK..n * CHUNK]]);
      FlattenOne(s[(n - 1) * CHUNK..n * CHUNK]);
      assert s[..(n - 1) * CHUNK] + s[(n - 1) * CHUNK..n * CHUNK] == s[..n * CHUNK];
    }
  }

  lemma FlattenOne(s: string)
    ensures Flatten([s]) == s
  {
    assert Flatten([s]) == s + Flatten<char>([]);
  }

  // The stream: the request and the beginning of more.
  function Stream(): string {
    LongRequest(61402) + Pad(4095)
  }

  // Fifteen full reads and a short one bring the request but for its last character,
  function Front(): seq<string>
    requires |Stream()| >= 61441
  {
    FullReads(Stream(), 15) + [Stream()[61440..61441]]
  }

  // and another full one brings the rest of the stream.
  function Reads(): seq<string>
    requires |Stream()| >= 61441
  {
    Front() + [Stream()[61441..]]
  }

  lemma CutShort(r: string)
    requires IsRequest(r)
    ensures Search(r[..|r| - 1], END, 0).None?
  {
    var short := r[..|r| - 1];
    SearchIff(r, END, 0, Some(|r| - |END|));
    forall j: nat | j <= |short| ensures !StartsAt(short, j, END) {
      if j + |END| <= |short| {
        AtInPrefix(r, |r| - 1, j);
      }
    }
    SearchIff(short, END, 0, None);
  }

  lemma FrontIs()
    ensures var s := Stream();
            && |s| == 65537 && s[..61441] == LongRequest(61402)[..61441]
            && |LongRequest(61402)| == 61442
            && Flatten(Front()) == s[..61441] && Small(Front())
            && Flatten(Reads()) == s && Small(Reads())
  {
    hide LongRequest, Pad, FullReads, Flatten;
    RequestLength(61402);
    PadLength(4095);
    StreamIs();
    var s := Stream();
    FullReadsJoin(s, 15);
    var one, last := s[61440..61441], s[61441..];
    FlattenAppend(FullReads(s, 15), [one]);
    FlattenOne(one);
    FlattenAppend(Front(), [last]);
    FlattenOne(last);
    TakeMore(s, 61440, 61441);
    TakeMore(s, 61441, |s|);
    TakeFront(LongRequest(61402), Pad(4095), 61441);
  }

  lemma TakeMore(s: string, i: nat, j: nat)
    requires i <= j <= |s|
    ensures s[..i] + s[i..j] == s[..j] && s[i..|s|] == s[i..] && s[..|s|] == s
  {}

  lemma TakeFront(a: string, b: string, n: nat)
    requires n <= |a|
    ensures (a + b)[..n] == a[..n]
  {}

  lemma CutsOf(r: string, rest: string)
    requires IsRequest(r) && Search(rest, END, 0).None?
    ensures CutAll(r + rest) == Cut([r], rest)
    ensures CutAll(r[..|r| - 1]) == Cut([], r[..|r| - 1])
  {
    hide Search;
    CutShort(r);
    CutUnfold(r[..|r| - 1]);
    RequestThen(r, rest);
    CutUnfold(rest);
    assert [r] + [] == [r];
  }

  // The cut of what has come before the last read, and of everything.
  lemma Cuts()
    ensures |Stream()| == 65537 && |LongRequest(61402)| == 61442
    ensures CutAll(Stream()[..61441]) == Cut([], Stream()[..61441])
    ensures CutAll(Stream()) == Cut([LongRequest(61402)], Pad(4095))
  {
    hide *;
    FrontIs();
    RequestParses(61402);
    PadIsPlain(4095);
    StreamIs();
    CutsOf(LongRequest(61402), Pad(4095));
  }

  lemma StreamIs()
    ensures Stream() == LongRequest(61402) + Pad(4095)
  {}

  lemma PadLength(n: nat)
    ensures |Pad(n)| == n
  {}

  lemma WithinOneMore()
    ensures Within(Stream(), LIMIT + 1)
  {
    hide CutAll, Stream, LongRequest, Pad;
    Cuts();
    PadLength(4095);
  }

  lemma ServedAtOnce(oracle: P.Oracle, hub: bool)
    ensures P.Serve(P.START, [LongRequest(61402)], 0, oracle, hub).responses == [R.Options(1)]
  {
    hide LongRequest, Parse, P.Serve, R.Options, Padded;
    RequestParses(61402);
    PaddedIs(61402);
    var requests := [LongRequest(61402)];
    P.ServeUnfold(P.START, requests, 0, oracle, hub);
    assert requests[1..] == [];
    P.ServeUnfold(P.START, [], 1, oracle, hub);
    assert [R.Options(1)] + [] == [R.Options(1)];
  }

  lemma PaddedIs(n: nat)
    ensures Padded(n).command == Options && Padded(n).cseq == 1
  {}

  // Before the last read nothing has been served, and everything is in the buffer.
  lemma BeforeLast(oracle: P.Oracle, hub: bool)
    ensures |Stream()| >= 61441
    ensures var y := FeedAll(Fresh(P.START, 0), Front(), oracle, hub);
            y.verdict.Open? && y.sent == [] && y.buffer == Stream()[..61441]
  {
    hide CutAll, P.Serve, FeedAll, Stream, Front, Small, LongRequest;
    FrontIs();
    Cuts();
    var front := Stream()[..61441];
    ChunkIndependence(P.START, 0, Front(), oracle, hub);
    P.ServeUnfold(P.START, [], 0, oracle, hub);
  }

  lemma FedInTurn(oracle: P.Oracle, hub: bool)
    ensures |Stream()| >= 61441
    ensures var y := FeedAll(Fresh(P.START, 0), Reads(), oracle, hub); y.verdict.Overflow? && y.sent == []
  {
    hide Drain, Stream, Front, LongRequest;
    BeforeLast(oracle, hub);
    Cuts();
    var all := Reads();
    assert all[..|all| - 1] == Front();
  }

  // The bound of ChunkIndependence is sharp: no read of this stream is longer than 4096, its one
  // request and the rest are at most 61442 characters long, and served at once the request is
  // answered; but read by read the buffer overflows and nothing is answered.
  lemma OneLongerOverflows(oracle: P.Oracle, hub: bool)
    ensures |Stream()| == 65537 && Small(Reads()) && Flatten(Reads()) == Stream()
    ensures Within(Stream(), LIMIT + 1)
    ensures P.Serve(P.START, CutAll(Stream()).requests, 0, oracle, hub).responses == [R.Options(1)]
    ensures var y := FeedAll(Fresh(P.START, 0), Reads(), oracle, hub);
            y.verdict.Overflow? && y.sent == []
  {
    hide *;
    Cuts();
    FrontIs();
    WithinOneMore();
    ServedAtOnce(oracle, hub);
    FedInTurn(oracle, hub);
  }
}
