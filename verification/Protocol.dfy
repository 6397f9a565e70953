// What a session makes of its requests (src/rtsp/session.cpp), as a function of its state and
// of what the world outside answers to each request.
module Protocol {
  import opened Prelude
  import opened Text
  import opened Parser
  import R = Responses
  import Client
  import opened Framing
  import Sdp
  import ParameterSets

  datatype State = Init | Ready | Playing | Closed

  // id is empty until the first accepted SETUP. ports are the client's, as last stored.
  // streaming is the UDP port that the streamer sends to, while there is one.
  datatype Core = Core(state: State, id: string, ports: R.Ports, streaming: Option<uint16>)

  // What a request may get from outside: the session id that is drawn, whether the streamer
  // can be connected, whether the hub can subscribe it, and the parameter sets the hub has cached.
  datatype Answer = Answer(id: string, connected: bool, subscribed: bool, sets: ParameterSets.Cached)

  // The answers to the first, the second, ... request of a session.
  type Oracle = f: nat -> Answer | forall k :: IsId(f(k).id)
    witness k => Answer("00000000", false, false, ParameterSets.NOTHING)

  predicate IsHex(c: char) {
    '0' <= c <= '9' || 'A' <= c <= 'F'
  }

  predicate IsId(s: string) {
    |s| == 8 && forall i :: 0 <= i < |s| ==> IsHex(s[i])
  }

  const START := Core(Init, "", R.Ports(0, 0), None)

  predicate MethodAllowed(state: State, m: Method) {
    match m
    case Options => true
    case GetParameter => true
    case Describe => true
    case Setup => state.Init? || state.Ready?
    case Play => state.Ready?
    case Pause => state.Playing?
    case Teardown => state.Ready? || state.Playing?
    case Unknown => false
  }

  // The value up to its first ';'.
  function SessionIdOf(value: string): string {
    value[..R.FindEither(value, ';', ';')]
  }

  predicate SessionMatches(c: Core, req: Request) {
    Lookup(req.headers, "Session").Some? && SessionIdOf(Lookup(req.headers, "Session").value) == c.id
  }

  // The request has a Session field that says this id, bare or with parameters behind it.
  ghost predicate Carries(req: Request, id: string) {
    var value := Lookup(req.headers, "Session");
    value.Some? && exists rest: string :: value.value == id + rest && (rest == "" || rest[0] == ';')
  }

  // These are the requests that are taken to be the session's, whatever their header says, if the
  // id itself holds no semicolon.
  lemma MatchesIff(c: Core, req: Request)
    ensures SessionMatches(c, req) <==> Carries(req, c.id) && ';' !in c.id
  {
    hide Lookup;
    if Lookup(req.headers, "Session").Some? {
      CutAtSemicolon(Lookup(req.headers, "Session").value, c.id);
    }
  }

  lemma CutAtSemicolon(value: string, id: string)
    ensures SessionIdOf(value) == id <==>
              ';' !in id && exists rest: string :: value == id + rest && (rest == "" || rest[0] == ';')
  {
    var n := R.FindEither(value, ';', ';');
    FindEitherIs(value);
    if SessionIdOf(value) == id {
      assert value == id + value[n..];
    }
    if rest: string :| value == id + rest && (rest == "" || rest[0] == ';') {
      if ';' !in id {
        if rest == "" {
          R.NoneOf(id, ';', ';');
          assert value == id;
        } else {
          R.FindEitherBehind(id, rest, ';', ';');
        }
      }
    }
  }

  lemma FindEitherIs(s: string)
    ensures var n := R.FindEither(s, ';', ';');
            && (forall i :: 0 <= i < n ==> s[i] != ';') && (n < |s| ==> s[n] == ';')
  {
    if s != "" && s[0] != ';' {
      FindEitherIs(s[1..]);
    }
  }

  // What a static_cast to uint16_t leaves of the stored port.
  function PortOf(c: Core): uint16 {
    c.ports.rtp % 0x1_0000
  }

  function InfoOf(sets: ParameterSets.Cached): Sdp.VideoStreamInfo {
    Sdp.VideoStreamInfo(96, 90000, Sdp.SpropText(sets.sps, sets.pps))
  }

  function HandleDescribe(req: Request, a: Answer): string {
    R.Describe(req.cseq, Sdp.Joined(Sdp.Lines(InfoOf(a.sets))), req.uri + "/")
  }

  function HandleSetup(c: Core, req: Request, a: Answer): (Core, string) {
    match Lookup(req.headers, "Transport")
    case None => (c, R.Error(req.cseq, 400, "Bad Request - No Transport"))
    case Some(transport) =>
      var (ok, ports) := R.ParseTransport(transport, c.ports);
      if !ok then (c.(ports := ports), R.Error(req.cseq, 461, "Unsupported Transport"))
      else
        var id := if c.id == "" then a.id else c.id;
        (c.(state := Ready, id := id, ports := ports), R.Setup(req.cseq, id, ports.rtp, ports.rtcp, 6970, 6971))
  }

  // The response to PLAY is out before the hub is asked to subscribe the streamer.
  function HandlePlay(c: Core, req: Request, a: Answer, hub: bool): (Core, string) {
    if !SessionMatches(c, req) then (c, R.Error(req.cseq, 454, "Session Not Found"))
    else if !a.connected then (c, R.Error(req.cseq, 500, "Internal Server Error"))
    else
      (if hub && a.subscribed then c.(state := Playing, streaming := Some(PortOf(c))) else c,
       R.Play(req.cseq, c.id))
  }

  function HandlePause(c: Core, req: Request): (Core, string) {
    if !SessionMatches(c, req) then (c, R.Error(req.cseq, 454, "Session Not Found"))
    else (c.(state := Ready, streaming := None), R.OkSession(req.cseq, c.id))
  }

  function HandleTeardown(c: Core, req: Request): (Core, string) {
    if !SessionMatches(c, req) then (c, R.Error(req.cseq, 454, "Session Not Found"))
    else (c.(state := Closed, streaming := None), R.Teardown(req.cseq, c.id))
  }

  // The new state and the response.
  function Handle(c: Core, req: Request, a: Answer, hub: bool): (Core, string) {
    if req.command.Unknown? then (c, R.Error(req.cseq, 501, "Not Implemented"))
    else if !MethodAllowed(c.state, req.command) then (c, R.Error(req.cseq, 455, "Method Not Valid in This State"))
    else
      match req.command
      case Options => (c, R.Options(req.cseq))
      case Describe => (c, HandleDescribe(req, if hub then a else a.(sets := ParameterSets.NOTHING)))
      case Setup => HandleSetup(c, req, a)
      case Play => HandlePlay(c, req, a, hub)
      case Pause => HandlePause(c, req)
      case Teardown => HandleTeardown(c, req)
      case GetParameter => (c, if c.id == "" then R.Ok(req.cseq) else R.OkSession(req.cseq, c.id))
      case Unknown => (c, R.Error(req.cseq, 500, "Internal Server Error"))
  }

  // Whether feed goes on. Thrown: std::stoi threw out of it. Overflow: too much was buffered.
  datatype Verdict = Open | Closing | Thrown | Overflow

  datatype Turn = Turn(core: Core, responses: seq<string>, verdict: Verdict)

  function HandleRaw(c: Core, raw: string, a: Answer, hub: bool): Turn {
    match Parse(raw)
    case Malformed => Turn(c, [R.Error(0, 400, "Bad Request")], Open)
    case Thrown => Turn(c, [], Verdict.Thrown)
    case Parsed(req) =>
      var (core, response) := Handle(c, req, a, hub);
      Turn(core, [response], if core.state.Closed? then Closing else Open)
  }

  // count requests were taken.
  datatype Served = Served(core: Core, responses: seq<string>, count: nat, verdict: Verdict)

  // The requests one after the other, until one of them ends the session; k were served before.
  function Serve(c: Core, requests: seq<string>, k: nat, oracle: Oracle, hub: bool): (s: Served)
    decreases |requests|
    ensures s.count <= |requests| && (s.verdict.Open? ==> s.count == |requests|)
  {
    if requests == [] then Served(c, [], 0, Open)
    else
      var t := HandleRaw(c, requests[0], oracle(k), hub);
      if !t.verdict.Open? then Served(t.core, t.responses, 1, t.verdict)
      else
        Followed(Served(t.core, t.responses, 1, t.verdict), Serve(t.core, requests[1..], k + 1, oracle, hub))
  }

  // What was served, and what was served after it.
  function Followed(s: Served, t: Served): Served {
    Served(t.core, s.responses + t.responses, s.count + t.count, t.verdict)
  }

  lemma FollowedParts(s: Served, t: Served)
    ensures var f := Followed(s, t); f.core == t.core && f.count == s.count + t.count && f.verdict == t.verdict
  {}

  lemma NothingServed(s: Served, c: Core)
    ensures Followed(Served(c, [], 0, Open), s) == s
  {}

  lemma FollowedTwice(s: Served, t: Served, u: Served)
    ensures Followed(Followed(s, t), u) == Followed(s, Followed(t, u))
  {}

  lemma ServeUnfold(c: Core, requests: seq<string>, k: nat, oracle: Oracle, hub: bool)
    ensures requests == [] ==> Serve(c, requests, k, oracle, hub) == Served(c, [], 0, Open)
    ensures requests != [] ==>
              var t := HandleRaw(c, requests[0], oracle(k), hub);
              var first := Served(t.core, t.responses, 1, t.verdict);
              Serve(c, requests, k, oracle, hub) ==
                if t.verdict.Open? then Followed(first, Serve(t.core, requests[1..], k + 1, oracle, hub)) else first
  {
    hide HandleRaw, Followed;
  }

  // Requests served one after the other are served as one list, unless the first ones end the
  // session.
  lemma {:induction false} ServeAppend(c: Core, a: seq<string>, b: seq<string>, k: nat, oracle: Oracle, hub: bool)
    ensures var s := Serve(c, a, k, oracle, hub);
            var t := Serve(s.core, b, k + s.count, oracle, hub);
            Serve(c, a + b, k, oracle, hub) == if s.verdict.Open? then Followed(s, t) else s
    decreases |a|
  {
    hide *;
    ServeUnfold(c, a, k, oracle, hub);
    if a == [] {
      assert a + b == b;
      NothingServed(Serve(c, b, k, oracle, hub), c);
    } else {
      var t := HandleRaw(c, a[0], oracle(k), hub);
      ServeUnfold(c, a + b, k, oracle, hub);
      assert (a + b)[1..] == a[1..] + b;
      ServeAppend(t.core, a[1..], b, k + 1, oracle, hub);
      var first := Served(t.core, t.responses, 1, t.verdict);
      var s := Serve(t.core, a[1..], k + 1, oracle, hub);
      FollowedParts(first, s);
      FollowedTwice(first, s, Serve(s.core, b, k + 1 + s.count, oracle, hub));
    }
  }

  // ----- What a session goes through -----

  predicate CoreInv(c: Core) {
    && (c.state.Init? ==> c.id == "")
    && (c.state.Ready? || c.state.Playing? ==> c.id != "")
    && (c.id != "" ==> IsId(c.id))
    && (c.state.Playing? <==> c.streaming.Some?)
  }

  lemma HandleKeepsInv(c: Core, req: Request, a: Answer, hub: bool)
    requires CoreInv(c) && IsId(a.id)
    ensures CoreInv(Handle(c, req, a, hub).0)
  {
    assert a.id != "";
    hide IsId, R.ParseTransport, Lookup;
  }

  // The state changes along the documented table and no other way, and each change happens
  // exactly under its condition.
  lemma Transitions(c: Core, req: Request, a: Answer, hub: bool)
    requires CoreInv(c)
    ensures var n := Handle(c, req, a, hub).0;
            var matches := Carries(req, c.id);
            && (c.state.Init? ==> n.state == if Accepts(c, req) then Ready else Init)
            && (c.state.Ready? ==>
                  n.state == if req.command.Play? && matches && a.connected && hub && a.subscribed then Playing
                             else if req.command.Teardown? && matches then Closed
                             else Ready)
            && (c.state.Playing? ==>
                  n.state == if req.command.Pause? && matches then Ready
                             else if req.command.Teardown? && matches then Closed
                             else Playing)
            && (c.state.Closed? ==> n == c)
  {
    if c.id != "" {
      OwnMatches(c, req);
    }
    hide R.ParseTransport, Lookup, SessionMatches, Carries, IsId;
  }

  lemma OwnMatches(c: Core, req: Request)
    requires CoreInv(c) && c.id != ""
    ensures SessionMatches(c, req) <==> Carries(req, c.id)
  {
    MatchesIff(c, req);
    hide SessionMatches, Carries;
  }

  // A SETUP with a Transport header that can be used.
  predicate Accepts(c: Core, req: Request) {
    var transport := Lookup(req.headers, "Transport");
    req.command.Setup? && transport.Some? && R.ParseTransport(transport.value, c.ports).0
  }

  // The id is given once and never changes; and only a SETUP gives one.
  lemma IdIsSetOnce(c: Core, req: Request, a: Answer, hub: bool)
    requires CoreInv(c)
    ensures var n := Handle(c, req, a, hub).0;
            n.id == if c.id == "" && c.state.Init? && Accepts(c, req) then a.id else c.id
  {
    hide R.ParseTransport, Lookup, SessionIdOf, IsId;
  }

  // A SETUP that is turned down changes neither state nor id nor stream; the stored ports are
  // what the reader of the Transport header made of them.
  lemma RejectedSetup(c: Core, req: Request, a: Answer, hub: bool)
    requires CoreInv(c) && req.command.Setup? && !Accepts(c, req)
    ensures var n := Handle(c, req, a, hub).0;
            && n == c.(ports := n.ports)
            && (n.ports != c.ports ==>
                  (c.state.Init? || c.state.Ready?) && Lookup(req.headers, "Transport").Some?
                  && n.ports == R.ParseTransport(Lookup(req.headers, "Transport").value, c.ports).1)
  {
    hide R.ParseTransport, Lookup, IsId;
  }

  // The answer to PLAY does not tell whether anything will be sent.
  lemma PlayAnswers(c: Core, req: Request, a: Answer, hub: bool)
    requires c.state.Ready? && req.command.Play? && SessionMatches(c, req) && a.connected
    ensures var (n, response) := Handle(c, req, a, hub);
            response == R.Play(req.cseq, c.id)
            && n == if hub && a.subscribed then c.(state := Playing, streaming := Some(PortOf(c))) else c
  {}

  lemma SessionIdOfId(id: string)
    requires IsId(id)
    ensures SessionIdOf(id) == id
  {
    R.NoneOf(id, ';', ';');
  }

  lemma HandleNotEmpty(c: Core, req: Request, a: Answer, hub: bool)
    ensures Handle(c, req, a, hub).1 != ""
  {
    hide Lookup, R.ParseTransport, SessionIdOf;
    hide R.Error, R.Ok, R.OkSession, R.Options, R.Describe, R.Setup, R.Play, R.Teardown;
  }

  // ----- Runs -----

  lemma {:induction false} ServeKeepsInv(c: Core, requests: seq<string>, k: nat, oracle: Oracle, hub: bool)
    requires CoreInv(c)
    ensures CoreInv(Serve(c, requests, k, oracle, hub).core)
    ensures var n := Serve(c, requests, k, oracle, hub).core;
            && (c.id != "" ==> n.id == c.id)
            && (c.state.Closed? ==> n == c)
            && (!c.state.Init? ==> !n.state.Init?)
    decreases |requests|
  {
    hide IsId, Handle, Parse;
    if requests != [] {
      var t := HandleRaw(c, requests[0], oracle(k), hub);
      OneTurn(c, requests[0], oracle(k), hub);
      hide CoreInv, HandleRaw;
      if t.verdict.Open? {
        ServeKeepsInv(t.core, requests[1..], k + 1, oracle, hub);
      }
    }
  }

  lemma OneTurn(c: Core, raw: string, a: Answer, hub: bool)
    requires CoreInv(c) && IsId(a.id)
    ensures var n := HandleRaw(c, raw, a, hub).core;
            && CoreInv(n) && (c.id != "" ==> n.id == c.id) && (c.state.Closed? ==> n == c)
            && (!c.state.Init? ==> !n.state.Init?)
  {
    hide Handle, Parse, IsId, Accepts, SessionMatches;
    match Parse(raw)
    case Parsed(req) =>
      HandleKeepsInv(c, req, a, hub);
      Transitions(c, req, a, hub);
      IdIsSetOnce(c, req, a, hub);
    case _ =>
  }

  // ----- Responses -----

  // The number a request is answered under: its own, or 0 if it cannot be parsed.
  function CSeqFor(raw: string): int {
    if Parse(raw).Parsed? then Parse(raw).request.cseq else 0
  }

  lemma IdIsLine(id: string)
    requires id == "" || IsId(id)
    ensures OneLine(id)
  {
    Client.PlainIsLine(id);
  }

  lemma HandleAnswers(c: Core, req: Request, a: Answer, hub: bool)
    requires CoreInv(c) && IsId(a.id) && Word(req.uri)
    ensures Client.Readable(Handle(c, req, a, hub).1, req.cseq)
  {
    hide Client.Readable, R.ParseTransport, Lookup, SessionIdOf, IsId, Search;
    hide R.Error, R.Ok, R.OkSession, R.Options, R.Describe, R.Setup, R.Play, R.Teardown;
    IdIsLine(c.id);
    IdIsLine(a.id);
    match req.command
    case Options => OptionsAnswers(c, req, a, hub);
    case Describe => DescribeAnswers(c, req, a, hub);
    case Setup => SetupAnswers(c, req, a);
      Client.ErrorReads(req.cseq, 455, "Method Not Valid in This State");
    case Play =>
      Errors(req.cseq);
      Client.PlayReads(req.cseq, c.id);
    case _ =>
      Errors(req.cseq);
      Client.OkReads(req.cseq, c.id);
  }

  lemma OptionsAnswers(c: Core, req: Request, a: Answer, hub: bool)
    requires req.command.Options?
    ensures Client.Readable(Handle(c, req, a, hub).1, req.cseq)
  {
    hide Client.Readable, R.Options;
    Client.OptionsReads(req.cseq);
  }

  lemma DescribeAnswers(c: Core, req: Request, a: Answer, hub: bool)
    requires req.command.Describe? && Word(req.uri)
    ensures Client.Readable(Handle(c, req, a, hub).1, req.cseq)
  {
    hide Client.Readable, R.Describe, Search;
    NothingIsLine();
    assert req.uri + "/" == req.uri + (['/'] + "");
    OneLineJoin(req.uri, '/', "");
    var sets := if hub then a.sets else ParameterSets.NOTHING;
    Client.DescribeReads(req.cseq, Sdp.Joined(Sdp.Lines(InfoOf(sets))), req.uri + "/");
  }

  lemma SetupAnswers(c: Core, req: Request, a: Answer)
    requires OneLine(c.id) && OneLine(a.id)
    ensures Client.Readable(HandleSetup(c, req, a).1, req.cseq)
  {
    hide Client.Readable, R.Error, R.Setup, R.ParseTransport, Lookup, OneLine;
    Client.ErrorReads(req.cseq, 400, "Bad Request - No Transport");
    Client.ErrorReads(req.cseq, 461, "Unsupported Transport");
    match Lookup(req.headers, "Transport")
    case None =>
    case Some(transport) =>
      var ports := R.ParseTransport(transport, c.ports).1;
      Client.SetupReads(req.cseq, if c.id == "" then a.id else c.id, ports.rtp, ports.rtcp, 6970, 6971);
  }

  lemma Errors(cseq: int)
    ensures Client.Readable(R.Error(cseq, 501, "Not Implemented"), cseq)
    ensures Client.Readable(R.Error(cseq, 455, "Method Not Valid in This State"), cseq)
    ensures Client.Readable(R.Error(cseq, 454, "Session Not Found"), cseq)
    ensures Client.Readable(R.Error(cseq, 500, "Internal Server Error"), cseq)
  {
    hide Client.Readable, R.Error;
    Client.ErrorReads(cseq, 501, "Not Implemented");
    Client.ErrorReads(cseq, 455, "Method Not Valid in This State");
    Client.ErrorReads(cseq, 454, "Session Not Found");
    Client.ErrorReads(cseq, 500, "Internal Server Error");
  }

  lemma TurnAnswers(c: Core, raw: string, a: Answer, hub: bool)
    requires CoreInv(c) && IsId(a.id)
    ensures var t := HandleRaw(c, raw, a, hub);
            if Parse(raw).Thrown? then t.responses == [] && t.verdict.Thrown?
            else |t.responses| == 1 && Client.Readable(t.responses[0], CSeqFor(raw)) && !t.verdict.Thrown?
  {
    hide Client.Readable, Handle, Parse, CoreInv, Word, R.Error;
    match Parse(raw)
    case Parsed(req) =>
      ParsedUriIsWord(raw);
      HandleAnswers(c, req, a, hub);
    case Malformed => Client.ErrorReads(0, 400, "Bad Request");
    case Thrown =>
  }

  // Every request that is taken is answered by exactly one response under its number, in
  // order, but for one whose CSeq makes std::stoi throw, which ends everything.
  lemma {:induction false} ServeAnswers(c: Core, requests: seq<string>, k: nat, oracle: Oracle, hub: bool)
    requires CoreInv(c)
    ensures var s := Serve(c, requests, k, oracle, hub);
            && |s.responses| == (if s.verdict.Thrown? then s.count - 1 else s.count)
            && forall i :: 0 <= i < |s.responses| ==> Client.Readable(s.responses[i], CSeqFor(requests[i]))
    decreases |requests|
  {
    hide Client.Readable, HandleRaw, CoreInv, Parse;
    if requests != [] {
      var t := HandleRaw(c, requests[0], oracle(k), hub);
      TurnAnswers(c, requests[0], oracle(k), hub);
      OneTurn(c, requests[0], oracle(k), hub);
      if t.verdict.Open? {
        ServeAnswers(t.core, requests[1..], k + 1, oracle, hub);
        var s := Serve(c, requests, k, oracle, hub);
        var more := Serve(t.core, requests[1..], k + 1, oracle, hub);
        assert s.responses == t.responses + more.responses;
        forall i | 0 <= i < |s.responses| ensures Client.Readable(s.responses[i], CSeqFor(requests[i])) {
          if i > 0 {
            assert s.responses[i] == more.responses[i - 1] && requests[i] == requests[1..][i - 1];
          }
        }
      }
    }
  }

  // So a client that only knows how to read responses finds exactly these in what it receives.
  lemma ClientReadsServed(c: Core, requests: seq<string>, k: nat, oracle: Oracle, hub: bool)
    requires CoreInv(c)
    ensures var responses := Serve(c, requests, k, oracle, hub).responses;
            Client.ReadResponses(Flatten(responses)) == responses
  {
    hide *;
    ServeAnswers(c, requests, k, oracle, hub);
    var responses := Serve(c, requests, k, oracle, hub).responses;
    var cseqs := seq(|responses|, i requires 0 <= i < |responses| => CSeqFor(requests[i]));
    Client.ReadsAll(responses, cseqs);
  }
}
