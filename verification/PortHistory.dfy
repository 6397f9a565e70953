// To which port a session streams, as a matter of the requests that it was sent.
module PortHistory {
  import opened Prelude
  import opened Text
  import opened Parser
  import R = Responses
  import opened P = Protocol
  import Client
  import Handshake

  // What a client can tell of the ports: the port of the last SETUP that was accepted, and the
  // last number that could be read behind client_port= in a SETUP that was answered 461 since.
  datatype Ledger = Ledger(accepted: Option<int>, stray: Option<int>)

  const NO_PORTS := Ledger(None, None)

  // A SETUP that the state allows, with a Transport header that cannot be used.
  predicate TurnedDown(c: Core, req: Request) {
    var transport := Lookup(req.headers, "Transport");
    && req.command.Setup? && MethodAllowed(c.state, Setup)
    && transport.Some? && !R.ParseTransport(transport.value, c.ports).0
  }

  // These are the requests that are answered 461.
  lemma TurnedDownIs461(c: Core, req: Request, a: Answer, hub: bool)
    ensures TurnedDown(c, req) <==> Client.CodeRead(Handle(c, req, a, hub).1) == Some(461)
  {
    hide Client.CodeRead, R.ParseTransport, Lookup, SessionIdOf, Handle;
    Handshake.Codes(c, req, a, hub);
  }

  function Note(l: Ledger, c: Core, raw: string): Ledger {
    match Parse(raw)
    case Parsed(req) =>
      if Accepts(c, req) && MethodAllowed(c.state, Setup)
      then Ledger(R.ReadablePort(Lookup(req.headers, "Transport").value), None)
      else if TurnedDown(c, req) && R.ReadablePort(Lookup(req.headers, "Transport").value).Some?
      then l.(stray := R.ReadablePort(Lookup(req.headers, "Transport").value))
      else l
    case _ => l
  }

  // The ledger of everything that Serve serves.
  function Book(l: Ledger, c: Core, requests: seq<string>, k: nat, oracle: Oracle, hub: bool): Ledger
    decreases |requests|
  {
    if requests == [] then l
    else
      var t := HandleRaw(c, requests[0], oracle(k), hub);
      var noted := Note(l, c, requests[0]);
      if t.verdict.Open? then Book(noted, t.core, requests[1..], k + 1, oracle, hub) else noted
  }

  // The stored port is what the ledger says.
  predicate Tracks(l: Ledger, c: Core) {
    && c.ports.rtp == (if l.stray.Some? then l.stray.value else if l.accepted.Some? then l.accepted.value else 0)
    && (c.state.Ready? || c.state.Playing? ==> l.accepted.Some?)
    && (l.accepted.Some? ==> 0 < l.accepted.value <= 65535)
  }

  lemma TurnTracks(l: Ledger, c: Core, raw: string, a: Answer, hub: bool)
    requires CoreInv(c) && Tracks(l, c)
    ensures Tracks(Note(l, c, raw), HandleRaw(c, raw, a, hub).core)
  {
    hide Parse, R.ParseTransport, R.ReadablePort, Lookup, SessionIdOf, IsId;
    hide R.Error, R.Ok, R.OkSession, R.Options, R.Describe, R.Setup, R.Play, R.Teardown, HandleDescribe;
    match Parse(raw)
    case Parsed(req) =>
      var transport := Lookup(req.headers, "Transport");
      if transport.Some? {
        R.PortIsStored(transport.value, c.ports);
      }
    case _ =>
  }

  lemma {:induction false} ServeTracks(l: Ledger, c: Core, requests: seq<string>, k: nat, oracle: Oracle, hub: bool)
    requires CoreInv(c) && Tracks(l, c)
    ensures Tracks(Book(l, c, requests, k, oracle, hub), Serve(c, requests, k, oracle, hub).core)
    decreases |requests|
  {
    ServeUnfold(c, requests, k, oracle, hub);
    hide Serve, HandleRaw, Note, Tracks, CoreInv;
    if requests != [] {
      var t := HandleRaw(c, requests[0], oracle(k), hub);
      TurnTracks(l, c, requests[0], oracle(k), hub);
      OneTurn(c, requests[0], oracle(k), hub);
      if t.verdict.Open? {
        ServeTracks(Note(l, c, requests[0]), t.core, requests[1..], k + 1, oracle, hub);
      }
    }
  }

  // A stream starts at the stored port, by its low sixteen bits.
  lemma StreamStarts(c: Core, raw: string, a: Answer, hub: bool)
    requires CoreInv(c) && c.streaming.None?
    ensures var n := HandleRaw(c, raw, a, hub).core;
            n.streaming.Some? ==> n.streaming == Some(PortOf(c)) && c.state.Ready?
  {
    hide Parse, R.ParseTransport, Lookup, SessionIdOf, IsId;
  }

  // Whenever a request starts a stream, in whatever run of a session from its start, the stream
  // goes to the port of the last SETUP that was accepted if and only if no number could be read
  // in the SETUPs that were answered 461 since, or the last such number is that port modulo 2^16.
  lemma StreamPortIff(requests: seq<string>, raw: string, oracle: Oracle, hub: bool)
    requires var s := Serve(START, requests, 0, oracle, hub);
             && s.verdict.Open? && s.core.streaming.None?
             && HandleRaw(s.core, raw, oracle(s.count), hub).core.streaming.Some?
    ensures var s := Serve(START, requests, 0, oracle, hub);
            var l := Book(NO_PORTS, START, requests, 0, oracle, hub);
            && l.accepted.Some?
            && (HandleRaw(s.core, raw, oracle(s.count), hub).core.streaming == Some(l.accepted.value)
                <==> l.stray.None? || l.stray.value % 0x1_0000 == l.accepted.value)
  {
    hide Serve, HandleRaw, Book, Note;
    var s := Serve(START, requests, 0, oracle, hub);
    ServeTracks(NO_PORTS, START, requests, 0, oracle, hub);
    ServeKeepsInv(START, requests, 0, oracle, hub);
    StreamStarts(s.core, raw, oracle(s.count), hub);
  }

  // While a session is PLAYING nothing moves its stream.
  lemma StreamStays(c: Core, raw: string, a: Answer, hub: bool)
    requires CoreInv(c) && c.streaming.Some?
    ensures var n := HandleRaw(c, raw, a, hub).core; n.streaming.Some? ==> n.streaming == c.streaming
  {
    hide Parse, R.ParseTransport, Lookup, SessionIdOf, IsId;
  }

  // ----- The claim without the condition is false -----

  function SetupRequest(cseq: int32, port: int32): Request {
    Request(Setup, "rtsp://host/stream/track0", cseq,
            [Field("CSeq", Decimal(cseq)), Field("Transport", R.CLIENT_PORT + Decimal(port))])
  }

  function PlayRequest(cseq: int32, id: string): Request {
    Request(Play, "rtsp://host/stream", cseq, [Field("CSeq", Decimal(cseq)), Field("Session", id)])
  }

  // Three requests as a client prints them: a SETUP for port 5000, one for port 70000, and PLAY.
  function Requests(id: string): seq<string> {
    [Render("SETUP", SetupRequest(1, 5000)), Render("SETUP", SetupRequest(2, 70000)),
     Render("PLAY", PlayRequest(3, id))]
  }

  lemma TwoFields(cseq: int32, name: string, value: string)
    requires GoodField(Field(name, value)) && |name| > 4
    ensures var fields := [Field("CSeq", Decimal(cseq)), Field(name, value)];
            && GoodFields(fields) && CSeqOf(fields) == Some(cseq) && Lookup(fields, name) == Some(value)
  {
    hide GoodField, Decimal, CSeqOf, Lookup;
    var fields := [Field("CSeq", Decimal(cseq)), Field(name, value)];
    Client.DecimalField("CSeq", cseq);
    assert EqualFold("CSeq", "CSeq") && EqualFold(name, name);
    CSeqOfPrinted(fields, 0, cseq);
    OnlyOne(fields, 1, name);
  }

  lemma SetupParses(cseq: int32, port: int32)
    requires port >= 0
    ensures Parse(Render("SETUP", SetupRequest(cseq, port))) == Parsed(SetupRequest(cseq, port))
    ensures Lookup(SetupRequest(cseq, port).headers, "Transport") == Some(R.CLIENT_PORT + Decimal(port))
  {
    hide Decimal, Search, OneLine, Parse, Render, GoodFields, CSeqOf, Lookup;
    DecimalChars(port);
    var value := R.CLIENT_PORT + Decimal(port);
    Client.PlainIsLine(value);
    LastChar(R.CLIENT_PORT, Decimal(port));
    Client.NamedField("Transport", value);
    TwoFields(cseq, "Transport", value);
    Client.PlainWord("SETUP");
    Client.PlainWord("rtsp://host/stream/track0");
    SetupIsSetup();
    ParsePrinted("SETUP", SetupRequest(cseq, port));
  }

  lemma LastChar(a: string, b: string)
    requires b != ""
    ensures (a + b)[|a + b| - 1] == b[|b| - 1]
  {}

  lemma SetupIsSetup()
    ensures Names("SETUP", Setup) && Names("PLAY", Play)
  {}

  lemma SessionIsName()
    ensures Client.Plain("Session") && Trimmed("Session") && Client.NoColon("Session")
  {}

  lemma PlayParses(cseq: int32, id: string)
    requires IsId(id)
    ensures Parse(Render("PLAY", PlayRequest(cseq, id))) == Parsed(PlayRequest(cseq, id))
    ensures Lookup(PlayRequest(cseq, id).headers, "Session") == Some(id)
  {
    hide Decimal, Search, OneLine, Parse, Render, GoodFields, CSeqOf, Lookup, IsId, Trimmed, Names, Word;
    Handshake.IdIsField(id);
    assert Client.Plain("Session") && Trimmed("Session") && Client.NoColon("Session") by { SessionIsName(); }
    Client.NamedField("Session", id);
    TwoFields(cseq, "Session", id);
    Client.PlainWord("PLAY");
    Client.PlainWord("rtsp://host/stream");
    SetupIsSetup();
    ParsePrinted("PLAY", PlayRequest(cseq, id));
  }

  function AfterFirst(id: string): Core {
    Core(Ready, id, R.Ports(5000, 5001), None)
  }

  function AfterSecond(id: string): Core {
    Core(Ready, id, R.Ports(70000, 70001), None)
  }

  function AfterThird(id: string): Core {
    Core(Playing, id, R.Ports(70000, 70001), Some(4464))
  }

  lemma SetupTurn(c: Core, cseq: int32, port: int32, a: Answer, l: Ledger)
    requires ((c.state.Init? && c.id == "") || (c.state.Ready? && c.id != "")) && port > 0
    ensures var raw := Render("SETUP", SetupRequest(cseq, port));
            var t := HandleRaw(c, raw, a, true);
            && t.verdict.Open? && |t.responses| == 1
            && t.core == (if port <= 65535 then c.(state := Ready, id := if c.id == "" then a.id else c.id) else c)
                           .(ports := R.Ports(port, port + 1))
            && Note(l, c, raw) == if port <= 65535 then Ledger(Some(port), None) else l.(stray := Some(port))
  {
    hide Parse, Render, R.ParseTransport, R.ReadablePort, Lookup, SetupRequest, R.Error, R.Setup, Decimal,
         HandleDescribe;
    SetupParses(cseq, port);
    R.SinglePort(port, c.ports);
    R.PortIsStored(R.CLIENT_PORT + Decimal(port), c.ports);
    ReadablePrinted(port);
    SetupIs(cseq, port);
  }

  lemma SetupIs(cseq: int32, port: int32)
    ensures SetupRequest(cseq, port).command == Setup
  {}

  lemma ReadablePrinted(port: int32)
    requires port > 0
    ensures R.ReadablePort(R.CLIENT_PORT + Decimal(port)) == Some(port)
  {
    hide R.ParseTransport, R.ReadablePort, Decimal;
    R.SinglePort(port, R.Ports(0, 0));
    R.PortIsStored(R.CLIENT_PORT + Decimal(port), R.Ports(0, 0));
  }

  lemma PlayTurn(c: Core, cseq: int32, a: Answer, l: Ledger)
    requires c.state.Ready? && IsId(c.id) && a.connected
    ensures var raw := Render("PLAY", PlayRequest(cseq, c.id));
            var t := HandleRaw(c, raw, a, true);
            && t.verdict.Open? && t.responses == [R.Play(cseq, c.id)]
            && t.core == (if a.subscribed then c.(state := Playing, streaming := Some(PortOf(c))) else c)
            && Note(l, c, raw) == l
  {
    hide Parse, Render, R.ParseTransport, R.ReadablePort, Lookup, R.Error, R.Play, Decimal, SessionIdOf, HandleDescribe;
    PlayParses(cseq, c.id);
    SessionIdOfId(c.id);
  }

  lemma BookUnfold(l: Ledger, c: Core, requests: seq<string>, k: nat, oracle: Oracle, hub: bool)
    requires requests != [] && HandleRaw(c, requests[0], oracle(k), hub).verdict.Open?
    ensures Book(l, c, requests, k, oracle, hub) ==
              Book(Note(l, c, requests[0]), HandleRaw(c, requests[0], oracle(k), hub).core, requests[1..],
                  k + 1, oracle, hub)
  {
    hide HandleRaw, Note;
  }

  lemma OneMore(l: Ledger, c: Core, requests: seq<string>, k: nat, oracle: Oracle, next: Core, noted: Ledger)
    requires requests != []
    requires var t := HandleRaw(c, requests[0], oracle(k), true); t.verdict.Open? && t.core == next
    requires Note(l, c, requests[0]) == noted
    ensures Serve(c, requests, k, oracle, true).core == Serve(next, requests[1..], k + 1, oracle, true).core
    ensures Serve(c, requests, k, oracle, true).verdict == Serve(next, requests[1..], k + 1, oracle, true).verdict
    ensures Book(l, c, requests, k, oracle, true) == Book(noted, next, requests[1..], k + 1, oracle, true)
  {
    hide HandleRaw, Note, Serve, Book;
    ServeUnfold(c, requests, k, oracle, true);
    BookUnfold(l, c, requests, k, oracle, true);
  }

  // Sent to a fresh session, these requests make it stream to port 4464, although port 5000 is
  // the only one that it accepted.
  lemma RejectedSetupMovesStream(oracle: Oracle)
    requires oracle(2).connected && oracle(2).subscribed
    ensures var requests := Requests(oracle(0).id);
            var s := Serve(START, requests, 0, oracle, true);
            && s.verdict.Open? && s.core.state.Playing? && s.core.streaming == Some(4464)
            && Book(NO_PORTS, START, requests, 0, oracle, true) == Ledger(Some(5000), Some(70000))
  {
    hide HandleRaw, Note, Serve, Book, Render, SetupRequest, PlayRequest;
    var id := oracle(0).id;
    var r1, r2, r3 := Render("SETUP", SetupRequest(1, 5000)), Render("SETUP", SetupRequest(2, 70000)),
        Render("PLAY", PlayRequest(3, id));
    SetupTurn(START, 1, 5000, oracle(0), NO_PORTS);
    OneMore(NO_PORTS, START, [r1, r2, r3], 0, oracle, AfterFirst(id), Ledger(Some(5000), None));
    SetupTurn(AfterFirst(id), 2, 70000, oracle(1), Ledger(Some(5000), None));
    assert [r1, r2, r3][1..] == [r2, r3] && [r2, r3][1..] == [r3] && [r3][1..] == [];
    var noted := Ledger(Some(5000), Some(70000));
    OneMore(Ledger(Some(5000), None), AfterFirst(id), [r2, r3], 1, oracle, AfterSecond(id), noted);
    PlayTurn(AfterSecond(id), 3, oracle(2), noted);
    OneMore(noted, AfterSecond(id), [r3], 2, oracle, AfterThird(id), noted);
    AtTheEnd(noted, AfterThird(id), oracle);
  }

  lemma AtTheEnd(l: Ledger, c: Core, oracle: Oracle)
    ensures Serve(c, [], 3, oracle, true).core == c && Serve(c, [], 3, oracle, true).verdict.Open?
    ensures Book(l, c, [], 3, oracle, true) == l
  {}
}
