// Each answer of a session, read back field by field.
module Answers {
  import opened Prelude
  import opened Text
  import opened Parser
  import R = Responses
  import opened Client
  import opened P = Protocol
  import opened Handshake
  import Sdp
  import Streamers
  import ParameterSets

  const METHODS := "OPTIONS, DESCRIBE, " + ("SETUP, PLAY, PAUSE, " + "TEARDOWN, GET_PARAMETER")

  function SessionField(id: string): Field {
    Field("Session", id)
  }

  lemma TwoLines(a: Field, b: Field)
    ensures FieldLines([a]) == [FieldLine(a)] && FieldLines([a, b]) == [FieldLine(a), FieldLine(b)]
  {
    assert [a][1..] == [] && [a, b][1..] == [b];
    assert FieldLines([a, b]) == [FieldLine(a)] + FieldLines([b]) && FieldLines([b]) == [FieldLine(b)] + FieldLines([]);
    assert [FieldLine(a)] + [FieldLine(b)] == [FieldLine(a), FieldLine(b)];
  }

  lemma FourLines(a: Field, b: Field, c: Field, d: Field)
    ensures FieldLines([a, b, c]) == [FieldLine(a), FieldLine(b), FieldLine(c)]
    ensures FieldLines([a, b, c, d]) == [FieldLine(a), FieldLine(b), FieldLine(c), FieldLine(d)]
  {
    TwoLines(c, d);
    TwoLines(b, c);
    assert [a, b, c][1..] == [b, c] && [a, b, c, d][1..] == [b, c, d] && [b, c, d][1..] == [c, d];
    assert FieldLines([b, c, d]) == [FieldLine(b)] + FieldLines([c, d]);
    assert FieldLines([a, b, c]) == [FieldLine(a)] + FieldLines([b, c]);
    assert FieldLines([a, b, c, d]) == [FieldLine(a)] + FieldLines([b, c, d]);
  }

  predicate IsNameChar(c: char) {
    'A' <= c <= 'Z' || 'a' <= c <= 'z' || c == '-'
  }

  lemma NameIsGood(name: string)
    requires name != "" && forall i :: 0 <= i < |name| ==> IsNameChar(name[i])
    ensures Plain(name) && Trimmed(name) && NoColon(name)
  {}

  lemma HeadOf(status: string, fields: seq<Field>, body: string)
    requires OneLine(status) && GoodFields(fields)
    ensures FieldsRead(Head([status] + FieldLines(fields)) + body) == fields
    ensures FieldsRead(Head([status] + FieldLines(fields))) == fields
  {
    hide FieldsRead, GoodFields, OneLine, Head, FieldLines;
    ReadFields(status, fields, body);
    ReadFields(status, fields, "");
    var head := Head([status] + FieldLines(fields));
    assert head + "" == head;
  }

  lemma StatusIsLine()
    ensures OneLine(R.StatusLine("200 OK"))
  {
    PlainIsLine(R.StatusLine("200 OK"));
  }

  // ----- The answers -----

  lemma OkSays(cseq: int)
    ensures FieldsRead(R.Ok(cseq)) == [CSeqField(cseq)]
  {
    hide FieldsRead, OneLine, Head, Decimal, GoodField;
    StatusIsLine();
    NameIsGood("CSeq");
    DecimalField("CSeq", cseq);
    TwoLines(CSeqField(cseq), CSeqField(cseq));
    Printed("CSeq", Decimal(cseq));
    assert "CSeq" + ": " == "CSeq: ";
    HeadOf(R.StatusLine("200 OK"), [CSeqField(cseq)], "");
    assert [R.StatusLine("200 OK")] + FieldLines([CSeqField(cseq)]) == [R.StatusLine("200 OK"), R.CSeqLine(cseq)];
  }

  lemma ErrorSays(cseq: int, code: int, reason: string)
    requires Plain(reason)
    ensures FieldsRead(R.Error(cseq, code, reason)) == [CSeqField(cseq)]
  {
    hide FieldsRead, OneLine, Head, Decimal, GoodField;
    var status := R.StatusLine(Decimal(code) + (" " + reason));
    DecimalChars(code);
    PlainIsLine(status);
    NameIsGood("CSeq");
    DecimalField("CSeq", cseq);
    TwoLines(CSeqField(cseq), CSeqField(cseq));
    Printed("CSeq", Decimal(cseq));
    assert "CSeq" + ": " == "CSeq: ";
    HeadOf(status, [CSeqField(cseq)], "");
    assert [status] + FieldLines([CSeqField(cseq)]) == [status, R.CSeqLine(cseq)];
  }

  // A field that follows the CSeq field.
  lemma GoodPair(cseq: int, name: string, value: string)
    requires Plain(name) && Trimmed(name) && NoColon(name) && OneLine(value) && Trimmed(value) && |name| > 4
    ensures GoodFields([CSeqField(cseq), Field(name, value)])
  {
    hide OneLine, GoodField, Decimal;
    NameIsGood("CSeq");
    DecimalField("CSeq", cseq);
    NamedField(name, value);
  }

  lemma OkSessionSays(cseq: int, id: string)
    requires OneLine(id) && Trimmed(id)
    ensures FieldsRead(R.OkSession(cseq, id)) == [CSeqField(cseq), SessionField(id)]
    ensures FieldsRead(R.Teardown(cseq, id)) == [CSeqField(cseq), SessionField(id)]
  {
    hide FieldsRead, OneLine, Head, Decimal, GoodFields, Trimmed;
    StatusIsLine();
    NameIsGood("Session");
    GoodPair(cseq, "Session", id);
    TwoLines(CSeqField(cseq), SessionField(id));
    Printed("CSeq", Decimal(cseq));
    Printed("Session", id);
    assert "CSeq" + ": " == "CSeq: " && "Session" + ": " == "Session: ";
    var fields := [CSeqField(cseq), SessionField(id)];
    HeadOf(R.StatusLine("200 OK"), fields, "");
    assert [R.StatusLine("200 OK")] + FieldLines(fields)
           == [R.StatusLine("200 OK"), R.CSeqLine(cseq), R.SessionLine(id)];
  }

  lemma PlainParts()
    ensures Plain("OPTIONS, DESCRIBE, ") && Plain("SETUP, PLAY, PAUSE, ") && Plain("TEARDOWN, GET_PARAMETER")
  {}

  lemma PlainSum(a: string, b: string)
    requires Plain(a) && Plain(b)
    ensures Plain(a + b)
  {}

  lemma MethodsAreLine()
    ensures OneLine(METHODS) && Trimmed(METHODS) && "Public: " + METHODS == R.PUBLIC
  {
    hide OneLine, Plain;
    var first, second, third := "OPTIONS, DESCRIBE, ", "SETUP, PLAY, PAUSE, ", "TEARDOWN, GET_PARAMETER";
    PlainParts();
    PlainSum(second, third);
    PlainSum(first, second + third);
    PlainIsLine(METHODS);
    assert METHODS[0] == first[0] && METHODS[|METHODS| - 1] == third[|third| - 1];
    assert "Public: " + first == "Public: OPTIONS, DESCRIBE, ";
    Regroup("Public: ", first, second + third);
  }

  lemma OptionsSays(cseq: int)
    ensures FieldsRead(R.Options(cseq)) == [CSeqField(cseq), Field("Public", METHODS)]
  {
    hide FieldsRead, OneLine, Head, Decimal, GoodFields, Trimmed, METHODS, R.PUBLIC;
    StatusIsLine();
    MethodsAreLine();
    NameIsGood("Public");
    GoodPair(cseq, "Public", METHODS);
    var fields := [CSeqField(cseq), Field("Public", METHODS)];
    TwoLines(fields[0], fields[1]);
    Printed("CSeq", Decimal(cseq));
    Printed("Public", METHODS);
    assert "CSeq" + ": " == "CSeq: " && "Public" + ": " == "Public: ";
    HeadOf(R.StatusLine("200 OK"), fields, "");
    assert [R.StatusLine("200 OK")] + FieldLines(fields)
           == [R.StatusLine("200 OK"), R.CSeqLine(cseq), R.PUBLIC];
  }

  lemma PlaySays(cseq: int, id: string)
    requires OneLine(id) && Trimmed(id)
    ensures FieldsRead(R.Play(cseq, id)) == [CSeqField(cseq), SessionField(id), Field("Range", "npt=0.000-")]
  {
    hide FieldsRead, OneLine, Head, Decimal, Trimmed, GoodField;
    var range := Field("Range", "npt=0.000-");
    var fields := [CSeqField(cseq), SessionField(id), range];
    StatusIsLine();
    assert GoodFields(fields) by { PlayFields(cseq, id); }
    FourLines(fields[0], fields[1], fields[2], fields[2]);
    Printed("CSeq", Decimal(cseq));
    Printed("Session", id);
    assert "CSeq" + ": " == "CSeq: " && "Session" + ": " == "Session: ";
    assert FieldLine(range) == "Range: npt=0.000-";
    HeadOf(R.StatusLine("200 OK"), fields, "");
    assert [R.StatusLine("200 OK")] + FieldLines(fields)
           == [R.StatusLine("200 OK"), R.CSeqLine(cseq), R.SessionLine(id), "Range: npt=0.000-"];
  }

  lemma PlayFields(cseq: int, id: string)
    requires OneLine(id) && Trimmed(id)
    ensures GoodFields([CSeqField(cseq), SessionField(id), Field("Range", "npt=0.000-")])
  {
    hide OneLine, GoodField, Decimal;
    NameIsGood("CSeq");
    NameIsGood("Session");
    NameIsGood("Range");
    DecimalField("CSeq", cseq);
    NamedField("Session", id);
    PlainIsLine("npt=0.000-");
    NamedField("Range", "npt=0.000-");
  }

  lemma DescribeFields(cseq: int, length: int, base: string)
    requires OneLine(base) && Trimmed(base)
    ensures GoodFields([CSeqField(cseq), Field("Content-Type", "application/sdp"), Field("Content-Base", base),
                        Field("Content-Length", Decimal(length))])
  {
    hide OneLine, GoodField, Decimal;
    NameIsGood("CSeq");
    NameIsGood("Content-Type");
    NameIsGood("Content-Base");
    NameIsGood("Content-Length");
    DecimalField("CSeq", cseq);
    DecimalField("Content-Length", length);
    PlainIsLine("application/sdp");
    NamedField("Content-Type", "application/sdp");
    NamedField("Content-Base", base);
    assert Lower("Content-Type"[8]) != Lower("Content-Base"[8]);
  }

  lemma DescribeSays(cseq: int, sdp: string, base: string)
    requires OneLine(base) && Trimmed(base)
    ensures FieldsRead(R.Describe(cseq, sdp, base))
            == [CSeqField(cseq), Field("Content-Type", "application/sdp"), Field("Content-Base", base),
                Field("Content-Length", Decimal(|sdp|))]
  {
    hide FieldsRead, OneLine, Head, Decimal, Trimmed, GoodFields;
    var kind := Field("Content-Type", "application/sdp");
    var fields := [CSeqField(cseq), kind, Field("Content-Base", base), Field("Content-Length", Decimal(|sdp|))];
    StatusIsLine();
    DescribeFields(cseq, |sdp|, base);
    FourLines(fields[0], fields[1], fields[2], fields[3]);
    Printed("CSeq", Decimal(cseq));
    Printed("Content-Base", base);
    Printed("Content-Length", Decimal(|sdp|));
    assert "CSeq" + ": " == "CSeq: " && "Content-Base" + ": " == "Content-Base: ";
    assert "Content-Length" + ": " == "Content-Length: ";
    assert FieldLine(kind) == "Content-Type: application/sdp";
    HeadOf(R.StatusLine("200 OK"), fields, sdp);
    assert [R.StatusLine("200 OK")] + FieldLines(fields)
           == [R.StatusLine("200 OK"), R.CSeqLine(cseq), "Content-Type: application/sdp", "Content-Base: " + base,
               "Content-Length: " + Decimal(|sdp|)];
  }

  // What a session answers, read back: the number of the request alone if the answer is no 200,
  // and otherwise what its method asks for, under the id that the session has then.
  lemma AnswerSays(c: Core, req: Request, a: Answer, hub: bool)
    requires CoreInv(c) && IsId(a.id) && Word(req.uri)
    ensures var (n, response) := Handle(c, req, a, hub);
            var (fields, number) := (FieldsRead(response), CSeqField(req.cseq));
            if CodeRead(response) != Some(200) then fields == [number]
            else if req.command.Options? then fields == [number, Field("Public", METHODS)]
            else if req.command.Describe? then
              Trimmed(req.uri + "/") ==>
                fields == [number, Field("Content-Type", "application/sdp"), Field("Content-Base", req.uri + "/"),
                           Field("Content-Length", Decimal(|BodyRead(response)|))]
            else if req.command.Setup? then
              fields == [number, SessionField(n.id), TransportField(n.ports.rtp, n.ports.rtcp, 6970, 6971)]
            else if req.command.Play? then
              fields == [number, SessionField(n.id), Field("Range", "npt=0.000-")]
            else if req.command.GetParameter? && n.id == "" then fields == [number]
            else fields == [number, SessionField(n.id)]
  {
    hide FieldsRead, CodeRead, Lookup, R.ParseTransport, SessionMatches, IsId, BodyRead, OneLine, Trimmed, Word;
    hide Decimal, METHODS, R.TransportValue;
    hide R.Error, R.Ok, R.OkSession, R.Options, R.Describe, R.Setup, R.Play, R.Teardown;
    ErrorCodes(req.cseq);
    OkCodes(req.cseq);
    ErrorsSay(req.cseq);
    SetupErrorsSay(req.cseq);
    if c.id != "" {
      IdIsField(c.id);
      OkSessionSays(req.cseq, c.id);
      PlaySays(req.cseq, c.id);
    }
    match req.command
    case Options => OptionsSays(req.cseq);
    case Describe =>
      var sets := if hub then a.sets else ParameterSets.NOTHING;
      var sdp, base := Sdp.Joined(Sdp.Lines(InfoOf(sets))), req.uri + "/";
      UriIsBase(req.uri);
      BodyOfDescribe(req.cseq, sdp, base);
      if Trimmed(base) {
        DescribeSays(req.cseq, sdp, base);
      }
    case Setup => SetupAnswerSays(c, req, a);
    case GetParameter => OkSays(req.cseq);
    case _ =>
  }

  lemma ErrorsSay(cseq: int)
    ensures FieldsRead(R.Error(cseq, 501, "Not Implemented")) == [CSeqField(cseq)]
    ensures FieldsRead(R.Error(cseq, 455, "Method Not Valid in This State")) == [CSeqField(cseq)]
    ensures FieldsRead(R.Error(cseq, 454, "Session Not Found")) == [CSeqField(cseq)]
    ensures FieldsRead(R.Error(cseq, 500, "Internal Server Error")) == [CSeqField(cseq)]
  {
    hide FieldsRead, R.Error;
    ErrorSays(cseq, 501, "Not Implemented");
    ErrorSays(cseq, 455, "Method Not Valid in This State");
    ErrorSays(cseq, 454, "Session Not Found");
    ErrorSays(cseq, 500, "Internal Server Error");
  }

  lemma SetupErrorsSay(cseq: int)
    ensures FieldsRead(R.Error(cseq, 461, "Unsupported Transport")) == [CSeqField(cseq)]
    ensures FieldsRead(R.Error(cseq, 400, "Bad Request - No Transport")) == [CSeqField(cseq)]
  {
    hide FieldsRead, R.Error;
    ErrorSays(cseq, 461, "Unsupported Transport");
    ErrorSays(cseq, 400, "Bad Request - No Transport");
  }

  lemma SetupAnswerSays(c: Core, req: Request, a: Answer)
    requires CoreInv(c) && IsId(a.id)
    ensures var (n, response) := HandleSetup(c, req, a);
            CodeRead(response) == Some(200) ==>
              FieldsRead(response) == [CSeqField(req.cseq), SessionField(n.id),
                                       TransportField(n.ports.rtp, n.ports.rtcp, 6970, 6971)]
  {
    hide FieldsRead, CodeRead, R.ParseTransport, Lookup, IsId, R.Setup, R.Error, OneLine, Trimmed;
    ErrorCodes(req.cseq);
    var id := if c.id == "" then a.id else c.id;
    IdIsField(id);
    var ports := HandleSetup(c, req, a).0.ports;
    SetupSays(req.cseq, id, ports.rtp, ports.rtcp, 6970, 6971);
  }

  // A text that is no request is answered 400 under the number 0, and changes nothing.
  lemma MalformedIs400(c: Core, raw: string, a: Answer, hub: bool)
    requires Parse(raw).Malformed?
    ensures var t := HandleRaw(c, raw, a, hub);
            && t.core == c && t.verdict.Open? && |t.responses| == 1
            && CodeRead(t.responses[0]) == Some(400) && FieldsRead(t.responses[0]) == [CSeqField(0)]
  {
    hide CodeRead, FieldsRead, R.Error, Parse;
    ErrorCode(0, 400, "Bad Request");
    ErrorSays(0, 400, "Bad Request");
  }

  // ----- The stream that is announced -----

  // The description that a client gets names one payload type, which is that of the packets, and
  // says that it is H.264 at 90000 ticks a second.
  lemma StreamIsAnnounced(c: Core, req: Request, a: Answer, hub: bool)
    requires req.command.Describe? && Word(req.uri)
    ensures var sdp := BodyRead(Handle(c, req, a, hub).1);
            && Sdp.NumberRead(sdp, "m=video 0 RTP/AVP ") == Some(Streamers.PAYLOAD_TYPE as int)
            && Sdp.NumberRead(sdp, "a=rtpmap:") == Some(Streamers.PAYLOAD_TYPE as int)
            && Sdp.NumberRead(sdp, "a=fmtp:") == Some(Streamers.PAYLOAD_TYPE as int)
            && Sdp.CodecRead(sdp) == Some("H264/" + Decimal(90000))
  {
    hide Sdp.NumberRead, Sdp.CodecRead, Sdp.Joined, Sdp.Lines, Sdp.SpropText, Sdp.Free;
    hide BodyRead, R.Describe, Word, Decimal, OneLine;
    var sets := if hub then a.sets else ParameterSets.NOTHING;
    UriIsBase(req.uri);
    BodyOfDescribe(req.cseq, Sdp.Joined(Sdp.Lines(InfoOf(sets))), req.uri + "/");
    Sdp.SpropTextIsFree(sets.sps, sets.pps);
    Sdp.StreamIsNamed(InfoOf(sets));
  }
}
