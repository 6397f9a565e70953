// A client that reads responses off its connection: to the first empty line, and then as many
// characters as Content-Length says. It always finds the responses that were sent.
module Client {
  import opened Prelude
  import opened Text
  import Parser
  import R = Responses

  const LENGTH := "Content-Length: "
  const CSEQ := "CSeq: "

  // The length of the body that follows a head, as its first Content-Length line says.
  function ContentLength(head: string): int
    decreases |head|
  {
    var (line, rest) := Parser.NextLine(head);
    if head == "" || line == "" then 0
    else if StartsAt(line, 0, LENGTH) then
      var n := ReadInt(line[|LENGTH|..]);
      if n.Some? then n.value else 0
    else ContentLength(rest)
  }

  // The first response of a stream, and what is left.
  function ReadResponse(stream: string): (r: Option<(string, string)>)
    ensures r.Some? ==> |r.value.1| < |stream|
  {
    var end := Search(stream, END, 0);
    SearchIff(stream, END, 0, end);
    if end.None? then None
    else
      var n := end.value + |END|;
      var length := ContentLength(stream[..n]);
      if length < 0 || n + length > |stream| then None
      else Some((stream[..n + length], stream[n + length..]))
  }

  function ReadResponses(stream: string): seq<string>
    decreases |stream|
  {
    var r := ReadResponse(stream);
    if r.None? then [] else [r.value.0] + ReadResponses(r.value.1)
  }

  // The number on the second line.
  function CSeqRead(response: string): Option<int> {
    var line := Parser.NextLine(Parser.NextLine(response).1).0;
    if StartsAt(line, 0, CSEQ) then ReadInt(line[|CSEQ|..]) else None
  }

  // ----- Responses can be read -----

  // Whatever follows it, the text is read as one response, and answers the given request.
  ghost predicate Readable(s: string, cseq: int) {
    CSeqRead(s) == Some(cseq) && forall rest: string :: ReadResponse(s + rest) == Some((s, rest))
  }

  predicate Plain(s: string) {
    forall i :: 0 <= i < |s| ==> s[i] != '\r'
  }

  lemma PlainIsLine(s: string)
    requires Plain(s)
    ensures OneLine(s)
  {
    hide Search, StartsAt;
    forall j: nat | j <= |s| ensures !StartsAt(s, j, CRLF) {
      AtLineEnd(s, j);
    }
    SearchIff(s, CRLF, 0, None);
  }

  lemma PlainWord(s: string)
    requires Plain(s) && forall i :: 0 <= i < |s| ==> s[i] != ' '
    ensures Parser.Word(s)
  {
    hide Search, StartsAt;
    PlainIsLine(s);
    forall j: nat | j <= |s| ensures !StartsAt(s, j, " ") {
      DiffersAt(s, j, " ", 0);
    }
    SearchIff(s, " ", 0, None);
  }

  // A line that is no Content-Length line, by its second or its ninth character.
  predicate Neutral(line: string) {
    |line| >= 2 && (line[1] != 'o' || (|line| > 8 && line[8] != 'L'))
  }

  lemma NeutralIsNotLength(line: string)
    requires Neutral(line)
    ensures !StartsAt(line, 0, LENGTH)
  {
    DiffersAt(line, 0, LENGTH, if line[1] != 'o' then 1 else 8);
  }

  lemma SkipNeutral(line: string, lines: seq<string>)
    requires Neutral(line) && OneLine(line)
    ensures ContentLength(Head([line] + lines)) == ContentLength(Head(lines))
  {
    hide Search, StartsAt;
    NeutralIsNotLength(line);
    assert ([line] + lines)[1..] == lines;
    Parser.NextLineOf(line, Head(lines));
  }

  lemma LengthLine(n: nat, lines: seq<string>)
    requires OneLine(LENGTH + Decimal(n))
    ensures ContentLength(Head([LENGTH + Decimal(n)] + lines)) == n
  {
    hide Search, Decimal;
    var line := LENGTH + Decimal(n);
    assert ([line] + lines)[1..] == lines;
    Parser.NextLineOf(line, Head(lines));
    assert line[|LENGTH|..] == Decimal(n) + "";
    ReadDecimal(n, "");
  }

  lemma NoLength()
    ensures ContentLength(Head([])) == 0
  {
    Parser.NothingIsLine();
  }

  lemma {:induction false} NeutralHead(lines: seq<string>, more: seq<string>)
    requires AllLines(lines) && forall i :: 0 <= i < |lines| ==> Neutral(lines[i])
    ensures ContentLength(Head(lines + more)) == ContentLength(Head(more))
  {
    hide ContentLength, Head, Neutral, OneLine;
    if lines == [] {
      assert lines + more == more;
    } else {
      NeutralHead(lines[1..], more);
      SkipNeutral(lines[0], lines[1..] + more);
      assert lines + more == [lines[0]] + (lines[1..] + more);
    }
  }

  lemma ReadHeadAndBody(lines: seq<string>, body: string, rest: string)
    requires lines != [] && AllLines(lines) && ContentLength(Head(lines)) == |body|
    ensures ReadResponse(Head(lines) + body + rest) == Some((Head(lines) + body, rest))
  {
    hide ContentLength, Search, AllLines, Head;
    var s := Head(lines) + body + rest;
    assert s == Head(lines) + (body + rest);
    HeadEnd(lines, body + rest);
    assert s[..|Head(lines)|] == Head(lines);
    assert s[..|Head(lines)| + |body|] == Head(lines) + body;
  }

  lemma ReadCSeq(status: string, cseq: int, more: seq<string>, body: string)
    requires OneLine(status) && OneLine(CSEQ + Decimal(cseq))
    ensures CSeqRead(Head([status, CSEQ + Decimal(cseq)] + more) + body) == Some(cseq)
  {
    hide Search, Decimal;
    var line := CSEQ + Decimal(cseq);
    var lines := [status, line] + more;
    assert lines[1..] == [line] + more && ([line] + more)[1..] == more;
    assert Head(lines) + body == status + (CRLF + (line + (CRLF + (Head(more) + body))));
    Parser.NextLineOf(status, line + (CRLF + (Head(more) + body)));
    Parser.NextLineOf(line, Head(more) + body);
    assert line[|CSEQ|..] == Decimal(cseq) + "";
    ReadDecimal(cseq, "");
  }

  // What all responses have in common: a status line, a CSeq line, lines that say nothing
  // about the length, and perhaps a Content-Length line with its body.
  lemma Answers(status: string, cseq: int, more: seq<string>, body: string)
    requires Plain(status) && Neutral(status) && AllLines(more)
    requires forall i :: 0 <= i < |more| ==> Neutral(more[i])
    ensures var lines := [status, R.CSeqLine(cseq)] + more;
            && Readable(Head(lines), cseq)
            && Readable(Head(lines + [LENGTH + Decimal(|body|)]) + body, cseq)
  {
    hide ContentLength, ReadResponse, CSeqRead, Head, Search;
    var lines := [status, R.CSeqLine(cseq)] + more;
    var long := lines + [LENGTH + Decimal(|body|)];
    PlainIsLine(status);
    DecimalLine(CSEQ, cseq);
    DecimalLine(LENGTH, |body|);
    NeutralHead(lines, []);
    NoLength();
    assert lines + [] == lines;
    NeutralHead(lines, [LENGTH + Decimal(|body|)]);
    LengthLine(|body|, []);
    assert [LENGTH + Decimal(|body|)] + [] == [LENGTH + Decimal(|body|)];
    forall rest: string ensures ReadResponse(Head(lines) + rest) == Some((Head(lines), rest)) {
      ReadHeadAndBody(lines, "", rest);
      assert Head(lines) + "" == Head(lines);
    }
    forall rest: string ensures ReadResponse(Head(long) + body + rest) == Some((Head(long) + body, rest)) {
      ReadHeadAndBody(long, body, rest);
    }
    ReadCSeq(status, cseq, more, "");
    ReadCSeq(status, cseq, more + [LENGTH + Decimal(|body|)], body);
    assert Head(lines) + "" == Head(lines);
    assert long == [status, R.CSeqLine(cseq)] + (more + [LENGTH + Decimal(|body|)]);
  }

  lemma DecimalLine(title: string, n: int)
    requires Plain(title)
    ensures OneLine(title + Decimal(n)) && Plain(title + Decimal(n))
  {
    DecimalChars(n);
    PlainIsLine(title + Decimal(n));
  }

  lemma OkReads(cseq: int, id: string)
    requires OneLine(id)
    ensures Readable(R.Ok(cseq), cseq) && Readable(R.OkSession(cseq, id), cseq) && Readable(R.Teardown(cseq, id), cseq)
  {
    hide Readable, Head, OneLine;
    Answers(R.StatusLine("200 OK"), cseq, [], "");
    IdLine(id);
    Answers(R.StatusLine("200 OK"), cseq, [R.SessionLine(id)], "");
    assert [R.StatusLine("200 OK"), R.CSeqLine(cseq)] + [R.SessionLine(id)]
           == [R.StatusLine("200 OK"), R.CSeqLine(cseq), R.SessionLine(id)];
    assert [R.StatusLine("200 OK"), R.CSeqLine(cseq)] + [] == [R.StatusLine("200 OK"), R.CSeqLine(cseq)];
  }

  lemma IdLine(id: string)
    requires OneLine(id)
    ensures OneLine(R.SessionLine(id)) && Neutral(R.SessionLine(id))
  {
    hide OneLine;
    PlainIsLine("Session:");
    Parser.OneLineJoin("Session:", ' ', id);
    assert "Session: " + id == "Session:" + ([' '] + id);
  }

  lemma OptionsReads(cseq: int)
    ensures Readable(R.Options(cseq), cseq)
  {
    hide Readable, Head, OneLine;
    assert Plain("Public: OPTIONS, DESCRIBE, ") && Plain("SETUP, PLAY, PAUSE, ") && Plain("TEARDOWN, GET_PARAMETER");
    PlainIsLine(R.PUBLIC);
    Answers(R.StatusLine("200 OK"), cseq, [R.PUBLIC], "");
    assert [R.StatusLine("200 OK"), R.CSeqLine(cseq)] + [R.PUBLIC]
        == [R.StatusLine("200 OK"), R.CSeqLine(cseq), R.PUBLIC];
  }

  // The body may be anything, and the base may hold anything but a line end.
  lemma DescribeReads(cseq: int, sdp: string, base: string)
    requires OneLine(base)
    ensures Readable(R.Describe(cseq, sdp, base), cseq)
  {
    hide Readable, Head, OneLine;
    var kind := "Content-Type: application/sdp";
    PlainIsLine(kind);
    PlainIsLine("Content-Base:");
    Parser.OneLineJoin("Content-Base:", ' ', base);
    assert "Content-Base: " + base == "Content-Base:" + ([' '] + base);
    Answers(R.StatusLine("200 OK"), cseq, [kind, "Content-Base: " + base], sdp);
    assert [R.StatusLine("200 OK"), R.CSeqLine(cseq)] + [kind, "Content-Base: " + base] + [LENGTH + Decimal(|sdp|)]
           == [R.StatusLine("200 OK"), R.CSeqLine(cseq), kind, "Content-Base: " + base,
               "Content-Length: " + Decimal(|sdp|)];
  }

  lemma SetupReads(cseq: int, id: string, rtp: int, rtcp: int, serverRtp: int, serverRtcp: int)
    requires OneLine(id)
    ensures Readable(R.Setup(cseq, id, rtp, rtcp, serverRtp, serverRtcp), cseq)
  {
    hide Readable, Head, OneLine, Decimal;
    IdLine(id);
    DecimalChars(rtp);
    DecimalChars(rtcp);
    DecimalChars(serverRtp);
    DecimalChars(serverRtcp);
    var line := "Transport: " + R.TransportValue(rtp, rtcp, serverRtp, serverRtcp);
    PlainIsLine(line);
    Answers(R.StatusLine("200 OK"), cseq, [R.SessionLine(id), line], "");
    assert [R.StatusLine("200 OK"), R.CSeqLine(cseq)] + [R.SessionLine(id), line]
           == [R.StatusLine("200 OK"), R.CSeqLine(cseq), R.SessionLine(id), line];
  }

  lemma PlayReads(cseq: int, id: string)
    requires OneLine(id)
    ensures Readable(R.Play(cseq, id), cseq)
  {
    hide Readable, Head, OneLine;
    IdLine(id);
    var line := "Range: npt=0.000-";
    PlainIsLine(line);
    Answers(R.StatusLine("200 OK"), cseq, [R.SessionLine(id), line], "");
    assert [R.StatusLine("200 OK"), R.CSeqLine(cseq)] + [R.SessionLine(id), line]
           == [R.StatusLine("200 OK"), R.CSeqLine(cseq), R.SessionLine(id), line];
  }

  lemma ErrorReads(cseq: int, code: int, reason: string)
    requires Plain(reason)
    ensures Readable(R.Error(cseq, code, reason), cseq)
  {
    hide Readable, Head, OneLine, Decimal;
    DecimalChars(code);
    Answers(R.StatusLine(Decimal(code) + (" " + reason)), cseq, [], "");
    var status := R.StatusLine(Decimal(code) + (" " + reason));
    assert [status, R.CSeqLine(cseq)] + [] == [status, R.CSeqLine(cseq)];
  }

  // ----- Reading them all -----

  // A list of responses comes out as it went in.
  lemma {:induction false} ReadsAll(responses: seq<string>, cseqs: seq<int>)
    requires |responses| == |cseqs|
    requires forall i :: 0 <= i < |responses| ==> Readable(responses[i], cseqs[i])
    ensures ReadResponses(Flatten(responses)) == responses
  {
    if responses == [] {
      assert ReadResponse("").None?;
    } else {
      ReadsAll(responses[1..], cseqs[1..]);
      var rest := Flatten(responses[1..]);
      assert Readable(responses[0], cseqs[0]);
      assert ReadResponse(responses[0] + rest) == Some((responses[0], rest));
    }
  }

  // ----- What a response says -----

  function StatusRead(response: string): string {
    Parser.NextLine(response).0
  }

  const VERSION := "RTSP/1.0 "

  function CodeRead(response: string): Option<int> {
    var status := StatusRead(response);
    if StartsAt(status, 0, VERSION) then ReadInt(status[|VERSION|..]) else None
  }

  function FieldsRead(response: string): seq<Parser.Field> {
    Parser.ParseFields(Parser.NextLine(response).1, [])
  }

  // The fields of a response can be read back like those of a request.
  lemma ReadFields(status: string, fields: seq<Parser.Field>, body: string)
    requires OneLine(status) && Parser.GoodFields(fields)
    ensures var response := Head([status] + Parser.FieldLines(fields)) + body;
            StatusRead(response) == status && FieldsRead(response) == fields
  {
    hide Search, Parser.NextLine, Parser.ParseFields, Parser.GoodFields, Parser.FieldLines, OneLine;
    var lines := Parser.FieldLines(fields);
    assert ([status] + lines)[1..] == lines;
    assert Head([status] + lines) + body == status + (CRLF + (Head(lines) + body));
    Parser.NextLineOf(status, Head(lines) + body);
    assert fields[0..] == fields && fields[..0] == [];
    Parser.ParsePrintedFields(fields, 0, body);
  }

  // A field with a value that survives printing.
  lemma NamedField(name: string, value: string)
    requires Plain(name) && Trimmed(name) && NoColon(name) && OneLine(value) && Trimmed(value)
    ensures Parser.GoodField(Parser.Field(name, value))
  {
    hide Search;
    PlainIsLine(name);
    forall j: nat | j <= |name| ensures !StartsAt(name, j, ":") {
      DiffersAt(name, j, ":", 0);
    }
    SearchIff(name, ":", 0, None);
  }

  predicate NoColon(s: string) {
    forall i :: 0 <= i < |s| ==> s[i] != ':'
  }

  lemma DecimalField(name: string, n: int)
    requires Plain(name) && Trimmed(name) && NoColon(name)
    ensures Parser.GoodField(Parser.Field(name, Decimal(n)))
  {
    DecimalChars(n);
    PlainIsLine(Decimal(n));
    NamedField(name, Decimal(n));
  }

  lemma CodeOf(code: int, reason: string, rest: string)
    requires Plain(reason)
    ensures CodeRead(R.StatusLine(Decimal(code) + (" " + reason)) + (CRLF + rest)) == Some(code)
  {
    hide Search, ReadInt, Decimal;
    DecimalChars(code);
    var status := R.StatusLine(Decimal(code) + (" " + reason));
    PlainIsLine(status);
    Parser.NextLineOf(status, rest);
    assert status[|VERSION|..] == Decimal(code) + (" " + reason);
    ReadDecimal(code, " " + reason);
  }

  lemma ErrorCode(cseq: int, code: int, reason: string)
    requires Plain(reason)
    ensures CodeRead(R.Error(cseq, code, reason)) == Some(code)
  {
    hide CodeRead, Decimal;
    CodeOf(code, reason, Head([R.CSeqLine(cseq)]));
  }

  lemma OkCode(more: seq<string>, body: string)
    ensures CodeRead(Head([R.StatusLine("200 OK")] + more) + body) == Some(200)
  {
    hide CodeRead;
    TwoHundred();
    CodeOf(200, "OK", Head(more) + body);
    var lines := [R.StatusLine("200 OK")] + more;
    assert lines[1..] == more;
    assert Head(lines) + body == R.StatusLine("200 OK") + (CRLF + (Head(more) + body));
  }

  lemma TwoHundred()
    ensures Decimal(200) + (" " + "OK") == "200 OK"
  {
    assert DecimalNat(2) == "2";
    assert DecimalNat(20) == "20";
  }
}
