// The responses (src/rtsp/response.cpp), and the reader of the Transport header that they
// answer (parse_transport in src/rtsp/session.cpp).
module Responses {
  import opened Prelude
  import opened Text

  // ----- The responses -----

  // None is empty: by the empty text a handler says that it has sent its response itself.

  function StatusLine(status: string): string {
    "RTSP/1.0 " + status
  }

  function CSeqLine(cseq: int): string {
    "CSeq: " + Decimal(cseq)
  }

  function SessionLine(id: string): string {
    "Session: " + id
  }

  const PUBLIC := "Public: OPTIONS, DESCRIBE, " + ("SETUP, PLAY, PAUSE, " + "TEARDOWN, GET_PARAMETER")

  function Ok(cseq: int): (r: string)
    ensures r != ""
  {
    Head([StatusLine("200 OK"), CSeqLine(cseq)])
  }

  function OkSession(cseq: int, id: string): (r: string)
    ensures r != ""
  {
    Head([StatusLine("200 OK"), CSeqLine(cseq), SessionLine(id)])
  }

  function Options(cseq: int): (r: string)
    ensures r != ""
  {
    Head([StatusLine("200 OK"), CSeqLine(cseq), PUBLIC])
  }

  function Describe(cseq: int, sdp: string, contentBase: string): (r: string)
    ensures r != ""
  {
    Head([StatusLine("200 OK"), CSeqLine(cseq), "Content-Type: application/sdp",
          "Content-Base: " + contentBase, "Content-Length: " + Decimal(|sdp|)]) + sdp
  }

  function TransportValue(clientRtp: int, clientRtcp: int, serverRtp: int, serverRtcp: int): string {
    "RTP/AVP;unicast;" + "client_port=" + (Decimal(clientRtp) + ("-" + (Decimal(clientRtcp) + (";" + (
    "server_port=" + (Decimal(serverRtp) + ("-" + Decimal(serverRtcp))))))))
  }

  function Setup(cseq: int, id: string, clientRtp: int, clientRtcp: int, serverRtp: int, serverRtcp: int): (r: string)
    ensures r != ""
  {
    Head([StatusLine("200 OK"), CSeqLine(cseq), SessionLine(id),
          "Transport: " + TransportValue(clientRtp, clientRtcp, serverRtp, serverRtcp)])
  }

  function Play(cseq: int, id: string): (r: string)
    ensures r != ""
  {
    Head([StatusLine("200 OK"), CSeqLine(cseq), SessionLine(id), "Range: npt=0.000-"])
  }

  function Teardown(cseq: int, id: string): (r: string)
    ensures r != ""
  {
    Head([StatusLine("200 OK"), CSeqLine(cseq), SessionLine(id)])
  }

  function Error(cseq: int, code: int, reason: string): (r: string)
    ensures r != ""
  {
    Head([StatusLine(Decimal(code) + (" " + reason)), CSeqLine(cseq)])
  }

  // ----- The Transport header -----

  const CLIENT_PORT := "client_port="

  // The position of the first of two separators, or the length.
  function FindEither(s: string, a: char, b: char): (n: nat)
    ensures n <= |s|
  {
    if s == "" || s[0] == a || s[0] == b then 0 else 1 + FindEither(s[1..], a, b)
  }

  // The text of the ports, between client_port= and the next ';' or ','.
  function PortsText(transport: string): Option<string> {
    var pos := Search(transport, CLIENT_PORT, 0);
    SearchIff(transport, CLIENT_PORT, 0, pos);
    if pos.None? then None
    else
      var rest := transport[pos.value + |CLIENT_PORT|..];
      Some(rest[..FindEither(rest, ';', ',')])
  }

  datatype Ports = Ports(rtp: int, rtcp: int)

  // The ports are stored as they are read, also when it turns out that they are no good.
  function PortsRead(text: string, stored: Ports): (bool, Ports) {
    var dash := Search(text, "-", 0);
    SearchIff(text, "-", 0, dash);
    if dash.None? then
      var rtp := Stoi(text);
      if rtp.None? then (false, stored) else (true, Ports(rtp.value, rtp.value + 1))
    else
      var rtp := Stoi(text[..dash.value]);
      var rtcp := Stoi(text[dash.value + 1..]);
      if rtp.None? then (false, stored)
      else if rtcp.None? then (false, Ports(rtp.value, stored.rtcp))
      else (true, Ports(rtp.value, rtcp.value))
  }

  function ParseTransport(transport: string, stored: Ports): (bool, Ports) {
    var text := PortsText(transport);
    if text.None? then (false, stored)
    else
      var (read, ports) := PortsRead(text.value, stored);
      (read && 0 < ports.rtp <= 65535, ports)
  }

  // The number that is read first.
  function FirstPort(text: string): Option<int32> {
    var dash := Search(text, "-", 0);
    SearchIff(text, "-", 0, dash);
    Stoi(if dash.None? then text else text[..dash.value])
  }

  // The number that is read first behind client_port=, if there is one.
  function ReadablePort(transport: string): Option<int32> {
    var text := PortsText(transport);
    if text.None? then None else FirstPort(text.value)
  }

  // Whether the header is turned down or not, the stored RTP port is afterwards the number
  // that is read first, and stays what it was exactly when there is none.
  lemma PortIsStored(transport: string, stored: Ports)
    ensures ParseTransport(transport, stored).1.rtp ==
              if ReadablePort(transport).None? then stored.rtp else ReadablePort(transport).value
    ensures ParseTransport(transport, stored).0 ==>
              ReadablePort(transport).Some? && 0 < ReadablePort(transport).value <= 65535
  {}

  // A single port is accepted exactly in the range of UDP ports, and stored in any case.
  lemma SinglePort(n: int32, stored: Ports)
    requires n >= 0
    ensures ParseTransport(CLIENT_PORT + Decimal(n), stored) == (1 <= n <= 65535, Ports(n, n + 1))
  {
    hide Search, StartsAt, Stoi, Decimal;
    var s := CLIENT_PORT + Decimal(n);
    assert s[..|CLIENT_PORT|] == CLIENT_PORT && s[|CLIENT_PORT|..] == Decimal(n);
    assert StartsAt(s, 0, CLIENT_PORT) by { AtStart(CLIENT_PORT, Decimal(n)); }
    SearchIff(s, CLIENT_PORT, 0, Some(0));
    DecimalChars(n);
    NoneOf(Decimal(n), ';', ',');
    assert Decimal(n)[..|Decimal(n)|] == Decimal(n);
    NoMinus(n);
    StoiDecimal(n, "");
    assert Decimal(n) + "" == Decimal(n);
  }

  lemma AtStart(a: string, b: string)
    ensures StartsAt(a + b, 0, a)
  {}

  lemma NoneOf(s: string, a: char, b: char)
    requires forall i :: 0 <= i < |s| ==> s[i] != a && s[i] != b
    ensures FindEither(s, a, b) == |s|
  {
    if s != "" {
      NoneOf(s[1..], a, b);
    }
  }

  lemma FindEitherBehind(s: string, rest: string, a: char, b: char)
    requires forall i :: 0 <= i < |s| ==> s[i] != a && s[i] != b
    requires rest != "" && (rest[0] == a || rest[0] == b)
    ensures FindEither(s + rest, a, b) == |s|
  {
    if s != "" {
      assert (s + rest)[1..] == s[1..] + rest;
      FindEitherBehind(s[1..], rest, a, b);
    } else {
      assert s + rest == rest;
    }
  }

  predicate Without(s: string, c: char) {
    forall i :: 0 <= i < |s| ==> s[i] != c
  }

  lemma WithoutIsAbsent(s: string, c: char)
    requires Without(s, c)
    ensures Search(s, [c], 0).None?
  {
    hide Search, StartsAt;
    forall j: nat | j <= |s| ensures !StartsAt(s, j, [c]) {
      DiffersAt(s, j, [c], 0);
    }
    SearchIff(s, [c], 0, None);
  }

  // The first client_port= of the header, and its value up to a semicolon, a comma or the end.
  predicate HasPorts(transport: string, before: string, text: string, rest: string) {
    && transport == before + (CLIENT_PORT + (text + rest))
    && Search(transport, CLIENT_PORT, 0) == Some(|before|)
    && Without(text, ';') && Without(text, ',') && (rest != "" ==> rest[0] == ';' || rest[0] == ',')
  }

  lemma PortsTextOf(transport: string, before: string, text: string, rest: string)
    requires HasPorts(transport, before, text, rest)
    ensures PortsText(transport) == Some(text)
  {
    hide Search;
    assert transport[|before| + |CLIENT_PORT|..] == text + rest;
    if rest == "" {
      NoneOf(text, ';', ',');
      assert text + rest == text;
    } else {
      FindEitherBehind(text, rest, ';', ',');
    }
    assert (text + rest)[..|text|] == text;
  }

  // What becomes of two ports, of one port, and of none, wherever they stand in the header. The
  // first is stored if it can be read, whatever becomes of the second one.
  lemma TwoPorts(transport: string, before: string, a: string, b: string, rest: string, stored: Ports)
    requires HasPorts(transport, before, a + (['-'] + b), rest) && Without(a, '-')
    ensures ParseTransport(transport, stored) ==
              if Stoi(a).None? then (false, stored)
              else if Stoi(b).None? then (false, Ports(Stoi(a).value, stored.rtcp))
              else (1 <= Stoi(a).value <= 65535, Ports(Stoi(a).value, Stoi(b).value))
  {
    hide Search, Stoi, PortsText, HasPorts;
    var text := a + (['-'] + b);
    PortsTextOf(transport, before, text, rest);
    WithoutIsAbsent(a, '-');
    FirstSeparator(a, '-', b);
    assert text[..|a|] == a && text[|a| + 1..] == b;
  }

  lemma OnePort(transport: string, before: string, a: string, rest: string, stored: Ports)
    requires HasPorts(transport, before, a, rest) && Without(a, '-')
    ensures ParseTransport(transport, stored) ==
              if Stoi(a).None? then (false, stored)
              else (1 <= Stoi(a).value <= 65535, Ports(Stoi(a).value, Stoi(a).value + 1))
  {
    hide Search, Stoi, PortsText, HasPorts;
    PortsTextOf(transport, before, a, rest);
    WithoutIsAbsent(a, '-');
  }

  lemma ReadPrintedPorts(rtp: int32, rtcp: int32, stored: Ports)
    requires rtp >= 0
    ensures PortsRead(Decimal(rtp) + ("-" + Decimal(rtcp)), stored) == (true, Ports(rtp, rtcp))
  {
    hide Search, StartsAt, Stoi, Decimal;
    var text := Decimal(rtp) + ("-" + Decimal(rtcp));
    NoMinus(rtp);
    FirstSeparator(Decimal(rtp), '-', Decimal(rtcp));
    assert text[..|Decimal(rtp)|] == Decimal(rtp) + "" && text[|Decimal(rtp)| + 1..] == Decimal(rtcp) + "";
    StoiDecimal(rtp, "");
    StoiDecimal(rtcp, "");
  }

  lemma NoMinus(n: nat)
    ensures Search(Decimal(n), "-", 0).None?
  {
    DecimalNatIs(n);
    var s := Decimal(n);
    forall j: nat | j <= |s| ensures !StartsAt(s, j, "-") {
      assert j < |s| ==> IsDigit(s[j]) && s[j..j + 1] == [s[j]];
    }
    SearchIff(s, "-", 0, None);
  }

  // Round trip: reading the ports that Setup prints gives the ports, whatever was stored before
  // and whatever the server's ports are.
  lemma ParsePrintedTransport(rtp: int32, rtcp: int32, serverRtp: int, serverRtcp: int, stored: Ports)
    requires 1 <= rtp <= 65535
    ensures ParseTransport(TransportValue(rtp, rtcp, serverRtp, serverRtcp), stored) == (true, Ports(rtp, rtcp))
  {
    hide Search, StartsAt, Stoi, Decimal, PortsRead;
    var tail := ";" + ("server_port=" + (Decimal(serverRtp) + ("-" + Decimal(serverRtcp))));
    var ports := Decimal(rtp) + ("-" + Decimal(rtcp));
    var s := TransportValue(rtp, rtcp, serverRtp, serverRtcp);
    ClientPortAt(ports + tail);
    assert s == "RTP/AVP;unicast;" + (CLIENT_PORT + (ports + tail));
    assert s[16 + |CLIENT_PORT|..] == ports + tail;
    DecimalChars(rtp);
    DecimalChars(rtcp);
    FindEitherBehind(ports, tail, ';', ',');
    assert (ports + tail)[..|ports|] == ports;
    ReadPrintedPorts(rtp, rtcp, stored);
  }

  lemma ClientPortAt(rest: string)
    ensures Search("RTP/AVP;unicast;" + (CLIENT_PORT + rest), CLIENT_PORT, 0) == Some(16)
  {
    var before := "RTP/AVP;unicast;";
    var s := before + (CLIENT_PORT + rest);
    forall j: nat | j < 16 ensures !StartsAt(s, j, CLIENT_PORT) {
      assert s[j] == before[j] && (s[j] == 'c' ==> s[j + 1] != 'l');
      DiffersAt(s, j, CLIENT_PORT, if s[j] == 'c' then 1 else 0);
    }
    assert s[16..28] == CLIENT_PORT;
    SearchIff(s, CLIENT_PORT, 0, Some(16));
  }
}
