// What a client learns from the responses, and that it can go on with what it learned.
module Handshake {
  import opened Prelude
  import opened Text
  import opened Parser
  import R = Responses
  import opened Client
  import opened P = Protocol
  import Sdp
  import ParameterSets

  function CSeqField(cseq: int): Field {
    Field("CSeq", Decimal(cseq))
  }

  function TransportField(rtp: int, rtcp: int, serverRtp: int, serverRtcp: int): Field {
    Field("Transport", R.TransportValue(rtp, rtcp, serverRtp, serverRtcp))
  }

  lemma SetupFieldsAreGood(cseq: int, id: string, rtp: int, rtcp: int, serverRtp: int, serverRtcp: int)
    requires OneLine(id) && Trimmed(id)
    ensures GoodFields([CSeqField(cseq), Field("Session", id), TransportField(rtp, rtcp, serverRtp, serverRtcp)])
  {
    hide OneLine, GoodField, Decimal;
    DecimalField("CSeq", cseq);
    NamedField("Session", id);
    TransportIsGood(rtp, rtcp, serverRtp, serverRtcp);
  }

  lemma TransportIsGood(rtp: int, rtcp: int, serverRtp: int, serverRtcp: int)
    ensures GoodField(TransportField(rtp, rtcp, serverRtp, serverRtcp))
  {
    hide OneLine, GoodField, Decimal;
    DecimalChars(rtp);
    DecimalChars(rtcp);
    DecimalChars(serverRtp);
    DecimalChars(serverRtcp);
    var value := R.TransportValue(rtp, rtcp, serverRtp, serverRtcp);
    PlainIsLine(value);
    var last := Decimal(serverRtcp);
    assert value[|value| - 1] == last[|last| - 1];
    NamedField("Transport", value);
  }

  // The response to SETUP says its number, the id and the ports.
  lemma SetupSays(cseq: int, id: string, rtp: int, rtcp: int, serverRtp: int, serverRtcp: int)
    requires OneLine(id) && Trimmed(id)
    ensures var response := R.Setup(cseq, id, rtp, rtcp, serverRtp, serverRtcp);
            && CodeRead(response) == Some(200)
            && FieldsRead(response)
               == [CSeqField(cseq), Field("Session", id), TransportField(rtp, rtcp, serverRtp, serverRtcp)]
  {
    hide CodeRead, FieldsRead, OneLine, GoodFields, Head, Decimal, R.TransportValue;
    var fields := [CSeqField(cseq), Field("Session", id), TransportField(rtp, rtcp, serverRtp, serverRtcp)];
    SetupFieldsAreGood(cseq, id, rtp, rtcp, serverRtp, serverRtcp);
    PlainIsLine(R.StatusLine("200 OK"));
    ReadFields(R.StatusLine("200 OK"), fields, "");
    OkCode(FieldLines(fields), "");
    ThreeLines(fields);
    Printed("CSeq", Decimal(cseq));
    Printed("Session", id);
    Printed("Transport", fields[2].value);
    assert "CSeq" + ": " == "CSeq: " && "Session" + ": " == "Session: " && "Transport" + ": " == "Transport: ";
    assert [R.StatusLine("200 OK")] + FieldLines(fields)
           == [R.StatusLine("200 OK"), R.CSeqLine(cseq), R.SessionLine(id),
               "Transport: " + R.TransportValue(rtp, rtcp, serverRtp, serverRtcp)];
    var response := R.Setup(cseq, id, rtp, rtcp, serverRtp, serverRtcp);
    assert response + "" == response;
  }

  lemma Printed(name: string, value: string)
    ensures FieldLine(Field(name, value)) == (name + ": ") + value
  {}

  lemma ThreeLines(fields: seq<Field>)
    requires |fields| == 3
    ensures FieldLines(fields) == [FieldLine(fields[0]), FieldLine(fields[1]), FieldLine(fields[2])]
  {
    assert FieldLines(fields[1..]) == [FieldLine(fields[1])] + FieldLines(fields[2..]);
    assert FieldLines(fields[2..]) == [FieldLine(fields[2])] + FieldLines(fields[3..]);
  }

  lemma IdIsField(id: string)
    requires IsId(id)
    ensures OneLine(id) && Trimmed(id)
  {
    IdIsLine(id);
  }

  // What may follow the id in a Session header.
  lemma SessionIdOfParameters(id: string, rest: string)
    requires IsId(id) && (rest != "" ==> rest[0] == ';')
    ensures SessionIdOf(id + rest) == id
  {
    if rest == "" {
      SessionIdOfId(id);
      assert id + rest == id;
    } else {
      R.FindEitherBehind(id, rest, ';', ';');
      assert (id + rest)[..|id|] == id;
    }
  }

  lemma ThreeLookups(a: Field, b: Field, c: Field)
    requires a.name == "CSeq" && b.name == "Session" && c.name == "Transport"
    ensures Lookup([a, b, c], "Session") == Some(b.value) && Lookup([a, b, c], "Transport") == Some(c.value)
  {
    assert [a, b, c][1..] == [b, c] && [b, c][1..] == [c];
    assert EqualFold("Session", "Session") && EqualFold("Transport", "Transport");
    assert Lookup([b, c], "Session") == Some(b.value);
    assert Lookup([c], "Transport") == Some(c.value);
    assert Lookup([b, c], "Transport") == Some(c.value);
  }

  // The handshake works out: a client that announces usable ports finds in the response to its
  // SETUP those very ports and an id, and if it hands the id back with its PLAY, bare or with
  // parameters behind it, and the hub can subscribe, the stream goes to the port it announced.
  lemma SetupThenPlay(c: Core, setup: Request, a: Answer, play: Request, b: Answer, parameters: string)
    requires CoreInv(c) && (c.state.Init? || c.state.Ready?) && IsId(a.id) && Accepts(c, setup)
    requires play.command.Play? && b.connected && b.subscribed && (parameters != "" ==> parameters[0] == ';')
    ensures var announced := R.ParseTransport(Lookup(setup.headers, "Transport").value, c.ports).1;
            var (d, response) := Handle(c, setup, a, true);
            var fields := FieldsRead(response);
            && CodeRead(response) == Some(200)
            && Lookup(fields, "Transport").Some? && Lookup(fields, "Session").Some?
            && (-INT_MAX - 1 <= announced.rtcp <= INT_MAX ==>
                  forall stored :: R.ParseTransport(Lookup(fields, "Transport").value, stored) == (true, announced))
            && (Lookup(play.headers, "Session") == Some(Lookup(fields, "Session").value + parameters) ==>
                  var e := Handle(d, play, b, true).0; e.state.Playing? && e.streaming == Some(announced.rtp))
  {
    hide R.ParseTransport, Lookup, SessionIdOf, IsId, FieldsRead, CodeRead, Decimal, OneLine, Trimmed, R.Setup,
         R.Play, R.Error, R.TransportValue;
    var transport := Lookup(setup.headers, "Transport").value;
    var announced := R.ParseTransport(transport, c.ports).1;
    R.PortIsStored(transport, c.ports);
    var id := if c.id == "" then a.id else c.id;
    IdIsField(id);
    SetupSays(setup.cseq, id, announced.rtp, announced.rtcp, 6970, 6971);
    ThreeLookups(CSeqField(setup.cseq), Field("Session", id),
                 TransportField(announced.rtp, announced.rtcp, 6970, 6971));
    if -INT_MAX - 1 <= announced.rtcp <= INT_MAX {
      var value := R.TransportValue(announced.rtp, announced.rtcp, 6970, 6971);
      forall stored ensures R.ParseTransport(value, stored) == (true, announced) {
        R.ParsePrintedTransport(announced.rtp, announced.rtcp, 6970, 6971, stored);
      }
    }
    SessionIdOfParameters(id, parameters);
  }

  // ----- DESCRIBE -----

  // What is behind the first empty line.
  function BodyRead(response: string): string {
    var end := Search(response, END, 0);
    SearchIff(response, END, 0, end);
    if end.None? then "" else response[end.value + |END|..]
  }

  // From the hub to the client: what a client takes out of the response to DESCRIBE are
  // exactly the octets of the parameter sets that the hub had cached, or nothing if one was missing
  // or there is no hub.
  lemma DescribeDelivers(c: Core, req: Request, a: Answer, hub: bool)
    requires req.command.Describe? && Word(req.uri)
    ensures Sdp.ParameterSetsOf(BodyRead(Handle(c, req, a, hub).1)) ==
              if !hub || a.sets.sps == [] || a.sets.pps == [] then None else Some((a.sets.sps, a.sets.pps))
  {
    var sets := if hub then a.sets else ParameterSets.NOTHING;
    var info := InfoOf(sets);
    Sdp.ParameterSetsSurvive(info, sets.sps, sets.pps);
    hide Sdp.ParameterSetsOf, Sdp.Joined, Sdp.SpropText, Sdp.Lines, BodyRead, Word, R.Describe;
    UriIsBase(req.uri);
    BodyOfDescribe(req.cseq, Sdp.Joined(Sdp.Lines(info)), req.uri + "/");
    assert Handle(c, req, a, hub).1 == R.Describe(req.cseq, Sdp.Joined(Sdp.Lines(info)), req.uri + "/");
  }

  lemma UriIsBase(uri: string)
    requires Word(uri)
    ensures OneLine(uri + "/")
  {
    hide Search;
    NothingIsLine();
    assert uri + "/" == uri + (['/'] + "");
    OneLineJoin(uri, '/', "");
  }

  lemma BodyOfDescribe(cseq: int, sdp: string, base: string)
    requires OneLine(base)
    ensures BodyRead(R.Describe(cseq, sdp, base)) == sdp
  {
    hide Head, OneLine, Search, Decimal;
    var lines := [R.StatusLine("200 OK"), R.CSeqLine(cseq), "Content-Type: application/sdp",
                  "Content-Base: " + base, "Content-Length: " + Decimal(|sdp|)];
    PlainIsLine(R.StatusLine("200 OK"));
    PlainIsLine("Content-Type: application/sdp");
    PlainIsLine("Content-Base:");
    OneLineJoin("Content-Base:", ' ', base);
    assert "Content-Base: " + base == "Content-Base:" + ([' '] + base);
    DecimalLine("CSeq: ", cseq);
    DecimalLine("Content-Length: ", |sdp|);
    HeadEnd(lines, sdp);
    var response := R.Describe(cseq, sdp, base);
    assert response == Head(lines) + sdp;
    assert response[|Head(lines)|..] == sdp;
  }

  // ----- Codes -----

  predicate NeedsSession(m: Method) {
    m.Play? || m.Pause? || m.Teardown?
  }

  // Each code is given exactly in its case: 501 for a method that is not known; 455 for a SETUP
  // while PLAYING or CLOSED, a PLAY but in READY, a PAUSE but in PLAYING and a TEARDOWN in INIT or
  // CLOSED, and so never for OPTIONS, DESCRIBE and GET_PARAMETER; 454 for a session header that is
  // missing or wrong, 400 for a missing Transport header, 461 for one that cannot be used, 500 for
  // an address to which nothing can be sent; and 200 otherwise.
  lemma Codes(c: Core, req: Request, a: Answer, hub: bool)
    ensures var refused := match req.command
                           case Setup => c.state.Playing? || c.state.Closed?
                           case Play => c.state.Init? || c.state.Playing? || c.state.Closed?
                           case Pause => c.state.Init? || c.state.Ready? || c.state.Closed?
                           case Teardown => c.state.Init? || c.state.Closed?
                           case _ => false;
            var transport := Lookup(req.headers, "Transport");
            CodeRead(Handle(c, req, a, hub).1) == Some(
              if req.command.Unknown? then 501
              else if refused then 455
              else if NeedsSession(req.command) && !(Carries(req, c.id) && ';' !in c.id) then 454
              else if req.command.Setup? && transport.None? then 400
              else if req.command.Setup? && !R.ParseTransport(transport.value, c.ports).0 then 461
              else if req.command.Play? && !a.connected then 500
              else 200)
  {
    ErrorCodes(req.cseq);
    OkCodes(req.cseq);
    MatchesIff(c, req);
    hide CodeRead, R.ParseTransport, Lookup, SessionMatches, Carries;
    hide R.Error, R.Ok, R.OkSession, R.Options, R.Describe, R.Setup, R.Play, R.Teardown;
  }

  // An allowed PLAY, PAUSE or TEARDOWN is answered 454, and then changes nothing, if and only if
  // it has no Session field, or one that is not the session's id, bare or with parameters.
  lemma WrongSessionIff(c: Core, req: Request, a: Answer, hub: bool)
    requires CoreInv(c) && NeedsSession(req.command) && MethodAllowed(c.state, req.command)
    ensures var (n, response) := Handle(c, req, a, hub);
            var value := Lookup(req.headers, "Session");
            var own := value.Some?
                       && exists rest: string :: value.value == c.id + rest && (rest == "" || rest[0] == ';');
            (CodeRead(response) == Some(454) <==> !own) && (!own ==> n == c)
  {
    Codes(c, req, a, hub);
    MatchesIff(c, req);
    hide CodeRead, R.ParseTransport, Lookup, SessionMatches;
    hide R.Error, R.Ok, R.OkSession, R.Options, R.Describe, R.Setup, R.Play, R.Teardown;
  }

  // Over every run from the start: once there is an id, only a PLAY, PAUSE or TEARDOWN that says
  // it starts, pauses or closes the session; with any other Session field they do nothing.
  lemma OnlyOwnRequestsAct(requests: seq<string>, raw: string, oracle: Oracle, hub: bool)
    ensures var s := Serve(START, requests, 0, oracle, hub);
            var t := HandleRaw(s.core, raw, oracle(s.count), hub);
            && (!s.core.state.Init? && (t.core.state != s.core.state || t.core.streaming != s.core.streaming) ==>
                  Parse(raw).Parsed? && NeedsSession(Parse(raw).request.command)
                  && Carries(Parse(raw).request, s.core.id))
            && (Parse(raw).Parsed? && NeedsSession(Parse(raw).request.command)
                && !Carries(Parse(raw).request, s.core.id) ==>
                  t.core == s.core && t.responses != []
                  && (CodeRead(t.responses[0]) == Some(454) || CodeRead(t.responses[0]) == Some(455)))
  {
    var s := Serve(START, requests, 0, oracle, hub);
    ServeKeepsInv(START, requests, 0, oracle, hub);
    if Parse(raw).Parsed? {
      var req := Parse(raw).request;
      Transitions(s.core, req, oracle(s.count), hub);
      HandleKeepsInv(s.core, req, oracle(s.count), hub);
      Codes(s.core, req, oracle(s.count), hub);
      MatchesIff(s.core, req);
      OnlyNeeded(s.core, req, oracle(s.count), hub);
    }
    hide Serve, Parse, CodeRead, Lookup, R.ParseTransport, Carries, SessionMatches, Handle, IsId;
  }

  // A stream is kept but by these three; and by these three too, if they name another session.
  lemma OnlyNeeded(c: Core, req: Request, a: Answer, hub: bool)
    requires CoreInv(c)
    ensures var n := Handle(c, req, a, hub).0;
            && (!NeedsSession(req.command) ==> n.streaming == c.streaming)
            && (NeedsSession(req.command) && !SessionMatches(c, req) ==> n == c)
  {
    hide R.ParseTransport, Lookup, SessionMatches, IsId;
  }

  lemma ErrorCodes(cseq: int)
    ensures CodeRead(R.Error(cseq, 501, "Not Implemented")) == Some(501)
    ensures CodeRead(R.Error(cseq, 455, "Method Not Valid in This State")) == Some(455)
    ensures CodeRead(R.Error(cseq, 454, "Session Not Found")) == Some(454)
    ensures CodeRead(R.Error(cseq, 500, "Internal Server Error")) == Some(500)
    ensures CodeRead(R.Error(cseq, 461, "Unsupported Transport")) == Some(461)
    ensures CodeRead(R.Error(cseq, 400, "Bad Request - No Transport")) == Some(400)
  {
    hide CodeRead, R.Error;
    ErrorCode(cseq, 501, "Not Implemented");
    ErrorCode(cseq, 455, "Method Not Valid in This State");
    ErrorCode(cseq, 454, "Session Not Found");
    ErrorCode(cseq, 500, "Internal Server Error");
    ErrorCode(cseq, 461, "Unsupported Transport");
    ErrorCode(cseq, 400, "Bad Request - No Transport");
  }

  lemma OkCodes(cseq: int)
    ensures CodeRead(R.Ok(cseq)) == Some(200) && CodeRead(R.Options(cseq)) == Some(200)
    ensures forall id :: CodeRead(R.OkSession(cseq, id)) == Some(200)
    ensures forall id :: CodeRead(R.Play(cseq, id)) == Some(200)
    ensures forall id :: CodeRead(R.Teardown(cseq, id)) == Some(200)
    ensures forall sdp, base :: CodeRead(R.Describe(cseq, sdp, base)) == Some(200)
    ensures forall id, rtp, rtcp, x, y :: CodeRead(R.Setup(cseq, id, rtp, rtcp, x, y)) == Some(200)
  {
    hide CodeRead, Decimal, Head, R.TransportValue, R.PUBLIC;
    var status := R.StatusLine("200 OK");
    FirstIsOk([status, R.CSeqLine(cseq)], "");
    FirstIsOk([status, R.CSeqLine(cseq), R.PUBLIC], "");
    forall id
      ensures CodeRead(R.OkSession(cseq, id)) == Some(200) && CodeRead(R.Teardown(cseq, id)) == Some(200) {
      FirstIsOk([status, R.CSeqLine(cseq), R.SessionLine(id)], "");
    }
    forall id ensures CodeRead(R.Play(cseq, id)) == Some(200) {
      FirstIsOk([status, R.CSeqLine(cseq), R.SessionLine(id), "Range: npt=0.000-"], "");
    }
    forall sdp, base ensures CodeRead(R.Describe(cseq, sdp, base)) == Some(200) {
      FirstIsOk([status, R.CSeqLine(cseq), "Content-Type: application/sdp", "Content-Base: " + base,
                 "Content-Length: " + Decimal(|sdp|)], sdp);
    }
    forall id, rtp, rtcp, x, y ensures CodeRead(R.Setup(cseq, id, rtp, rtcp, x, y)) == Some(200) {
      FirstIsOk([status, R.CSeqLine(cseq), R.SessionLine(id), "Transport: " + R.TransportValue(rtp, rtcp, x, y)], "");
    }
  }

  lemma FirstIsOk(lines: seq<string>, body: string)
    requires lines != [] && lines[0] == R.StatusLine("200 OK")
    ensures CodeRead(Head(lines) + body) == Some(200)
    ensures body == "" ==> CodeRead(Head(lines)) == Some(200)
  {
    hide CodeRead, Head;
    assert lines == [lines[0]] + lines[1..];
    OkCode(lines[1..], body);
    assert body == "" ==> Head(lines) + body == Head(lines);
  }
}
