// When a session stops listening: after a TEARDOWN that it answered with 200, and with nothing
// behind it.
module Closings {
  import opened Prelude
  import opened Text
  import opened Parser
  import R = Responses
  import opened P = Protocol
  import opened Framing
  import Client
  import Handshake

  // The request ends the session: a TEARDOWN that is answered with 200.
  predicate Ends(raw: string, response: string) {
    Parse(raw).Parsed? && Parse(raw).request.command.Teardown? && Client.CodeRead(response) == Some(200)
  }

  lemma TurnCloses(c: Core, raw: string, a: Answer, hub: bool)
    requires CoreInv(c) && !c.state.Closed? && IsId(a.id)
    ensures var t := HandleRaw(c, raw, a, hub);
            && (t.verdict.Closing? <==> t.core.state.Closed?)
            && (t.verdict.Closing? <==> t.responses != [] && Ends(raw, t.responses[0]))
            && (t.verdict.Thrown? <==> t.responses == []) && (t.verdict.Thrown? <==> Parse(raw).Thrown?)
            && |t.responses| <= 1 && !t.verdict.Overflow?
  {
    hide Parse, CoreInv, Client.CodeRead, Handle, R.Error, R.ParseTransport, Lookup, SessionMatches, Carries;
    match Parse(raw)
    case Parsed(req) =>
      Transitions(c, req, a, hub);
      Handshake.Codes(c, req, a, hub);
      MatchesIff(c, req);
      InState(c);
      if c.id != "" {
        OwnMatches(c, req);
      }
    case _ =>
  }

  lemma InState(c: Core)
    requires CoreInv(c)
    ensures c.state.Init? || c.state.Closed? || c.id != ""
  {}

  // Serving stops with verdict Closing if and only if the session is CLOSED then, which is the
  // case exactly when the last request that was taken is a TEARDOWN answered with 200; no request
  // before it was one, and none behind it is taken or answered.
  lemma {:induction false} ClosingIff(c: Core, requests: seq<string>, k: nat, oracle: Oracle, hub: bool)
    requires CoreInv(c) && !c.state.Closed?
    ensures var s := Serve(c, requests, k, oracle, hub);
            && |s.responses| <= s.count && !s.verdict.Overflow?
            && (s.verdict.Closing? <==> s.core.state.Closed?)
            && (s.verdict.Closing? <==>
                  0 < s.count == |s.responses| && Ends(requests[s.count - 1], s.responses[s.count - 1]))
            && (s.verdict.Thrown? <==> 0 < s.count && Parse(requests[s.count - 1]).Thrown?)
            && forall i :: 0 <= i < |s.responses| && i + 1 < s.count ==> !Ends(requests[i], s.responses[i])
    decreases |requests|
  {
    ServeUnfold(c, requests, k, oracle, hub);
    hide Serve, HandleRaw, CoreInv, Ends, Parse;
    if requests != [] {
      var t := HandleRaw(c, requests[0], oracle(k), hub);
      TurnCloses(c, requests[0], oracle(k), hub);
      OneTurn(c, requests[0], oracle(k), hub);
      if t.verdict.Open? {
        ClosingIff(t.core, requests[1..], k + 1, oracle, hub);
        var s, more := Serve(c, requests, k, oracle, hub), Serve(t.core, requests[1..], k + 1, oracle, hub);
        assert s.responses == t.responses + more.responses && s.count == 1 + more.count;
        forall i | 0 <= i < |s.responses| && i + 1 < s.count ensures !Ends(requests[i], s.responses[i]) {
          if i > 0 {
            assert s.responses[i] == more.responses[i - 1] && requests[i] == requests[1..][i - 1];
          }
        }
        assert more.count > 0 ==> requests[s.count - 1] == requests[1..][more.count - 1];
      }
    }
  }
}
