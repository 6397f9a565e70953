// Whether a session whose PLAY was answered with 200 is playing.
module PlayHistory {
  import opened Prelude
  import opened Text
  import opened Parser
  import R = Responses
  import opened P = Protocol
  import Client
  import Handshake
  import opened PortHistory

  // A PLAY that is answered with 200, wherever in the run of a session from its start, makes the
  // session play if and only if there is a hub and it subscribes the streamer; if it does not,
  // the session is where it was.
  lemma PlaysIff(requests: seq<string>, raw: string, oracle: Oracle, hub: bool)
    requires var s := Serve(START, requests, 0, oracle, hub);
             var t := HandleRaw(s.core, raw, oracle(s.count), hub);
             && s.verdict.Open? && Parse(raw).Parsed? && Parse(raw).request.command.Play?
             && t.responses != [] && Client.CodeRead(t.responses[0]) == Some(200)
    ensures var s := Serve(START, requests, 0, oracle, hub);
            var n := HandleRaw(s.core, raw, oracle(s.count), hub).core;
            && s.core.state.Ready? && oracle(s.count).connected
            && (n.state.Playing? <==> hub && oracle(s.count).subscribed)
            && n == if hub && oracle(s.count).subscribed
                    then s.core.(state := Playing, streaming := Some(PortOf(s.core))) else s.core
  {
    var s := Serve(START, requests, 0, oracle, hub);
    Handshake.Codes(s.core, Parse(raw).request, oracle(s.count), hub);
    MatchesIff(s.core, Parse(raw).request);
    PlayAnswers(s.core, Parse(raw).request, oracle(s.count), hub);
    hide Serve, Parse, Client.CodeRead, Lookup, R.ParseTransport, SessionMatches, Carries, Handle, R.Play, R.Error;
  }

  // Both happen: after a SETUP and a PLAY as a client prints them, each of them answered with
  // 200, the session plays or is READY still, as the hub answers.
  lemma PlayAnsweredNotPlaying(oracle: Oracle)
    requires oracle(1).connected
    ensures var id := oracle(0).id;
            var requests := [Render("SETUP", SetupRequest(1, 5000)), Render("PLAY", PlayRequest(2, id))];
            var s := Serve(START, requests, 0, oracle, true);
            && s.verdict.Open? && |s.responses| == 2
            && Client.CodeRead(s.responses[0]) == Some(200) && Client.CodeRead(s.responses[1]) == Some(200)
            && s.core.state == (if oracle(1).subscribed then Playing else Ready)
            && s.core.streaming == (if oracle(1).subscribed then Some(5000) else None)
  {
    hide HandleRaw, Note, Serve, Render, SetupRequest, PlayRequest, R.Play, R.Setup, Client.CodeRead;
    var id := oracle(0).id;
    var r1, r2 := Render("SETUP", SetupRequest(1, 5000)), Render("PLAY", PlayRequest(2, id));
    var c := AfterFirst(id);
    SetupTurn(START, 1, 5000, oracle(0), NO_PORTS);
    SetupCode(START, 1, 5000, oracle(0));
    PlayTurn(c, 2, oracle(1), NO_PORTS);
    Handshake.OkCodes(2);
    assert [r1, r2][1..] == [r2] && [r2][1..] == [];
    ServeUnfold(START, [r1, r2], 0, oracle, true);
    ServeUnfold(c, [r2], 1, oracle, true);
    ServeUnfold(HandleRaw(c, r2, oracle(1), true).core, [], 2, oracle, true);
  }

  lemma SetupCode(c: Core, cseq: int32, port: int32, a: Answer)
    requires c.state.Init? && 0 < port <= 65535
    ensures var t := HandleRaw(c, Render("SETUP", SetupRequest(cseq, port)), a, true);
            t.responses != [] && Client.CodeRead(t.responses[0]) == Some(200)
  {
    hide Parse, Render, Lookup, SetupRequest, Decimal, R.ParseTransport, Handle, Client.CodeRead, R.Error;
    SetupParses(cseq, port);
    SetupIs(cseq, port);
    R.SinglePort(port, c.ports);
    Handshake.Codes(c, SetupRequest(cseq, port), a, true);
  }
}
