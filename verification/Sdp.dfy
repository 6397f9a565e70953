// The session description (src/sdp/builder.cpp), and a client that takes the parameter sets
// out of it.
module Sdp {
  import opened Prelude
  import opened Text
  import Parser
  import Base64

  datatype VideoStreamInfo = VideoStreamInfo(payloadType: int, clockRate: int, sprop: string)

  const SPROP := ";sprop-parameter-sets="
  const FMTP := "a=fmtp:"

  function FmtpStart(info: VideoStreamInfo): string {
    FMTP + (Decimal(info.payloadType) + " packetization-mode=1")
  }

  function FmtpLine(info: VideoStreamInfo): string {
    FmtpStart(info) + (if info.sprop == "" then "" else SPROP + info.sprop)
  }

  function FrontLines(info: VideoStreamInfo): seq<string> {
    ["v=0", "o=- 0 0 IN IP4 0.0.0.0", "s=VEDA RTSP Stream", "c=IN IP4 0.0.0.0", "t=0 0", "a=control:*",
     "m=video 0 RTP/AVP " + Decimal(info.payloadType),
     "a=rtpmap:" + (Decimal(info.payloadType) + (" H264/" + Decimal(info.clockRate)))]
  }

  function Lines(info: VideoStreamInfo): seq<string> {
    FrontLines(info) + [FmtpLine(info), "a=control:track0"]
  }

  // Lines, each with its line end.
  function Joined(lines: seq<string>): string {
    if lines == [] then "" else lines[0] + (CRLF + Joined(lines[1..]))
  }

  lemma {:induction false} JoinedAppend(lines: seq<string>, line: string)
    ensures Joined(lines + [line]) == Joined(lines) + (line + CRLF)
  {
    if lines == [] {
      assert lines + [line] == [line];
      assert Joined([line][1..]) == "";
    } else {
      JoinedAppend(lines[1..], line);
      assert (lines + [line])[1..] == lines[1..] + [line];
      Associate(lines[0], CRLF, Joined(lines[1..]), line + CRLF);
    }
  }

  lemma Associate(a: string, b: string, c: string, d: string)
    ensures a + (b + (c + d)) == (a + (b + c)) + d
  {}

  method Build(info: VideoStreamInfo) returns (sdp: string)
    ensures sdp == Joined(Lines(info))
  {
    hide Joined, Decimal, FmtpStart;
    ghost var lines: seq<string> := [];
    JoinedNothing();
    sdp := "";
    sdp, lines := AddLine(sdp, lines, "v=0");
    sdp, lines := AddLine(sdp, lines, "o=- 0 0 IN IP4 0.0.0.0");
    sdp, lines := AddLine(sdp, lines, "s=VEDA RTSP Stream");
    sdp, lines := AddLine(sdp, lines, "c=IN IP4 0.0.0.0");
    sdp, lines := AddLine(sdp, lines, "t=0 0");
    sdp, lines := AddLine(sdp, lines, "a=control:*");
    sdp, lines := AddLine(sdp, lines, "m=video 0 RTP/AVP " + Decimal(info.payloadType));
    sdp, lines := AddLine(sdp, lines, "a=rtpmap:" + (Decimal(info.payloadType) + (" H264/" + Decimal(info.clockRate))));
    var fmtp := FmtpStart(info);
    if info.sprop != "" {
      fmtp := fmtp + (SPROP + info.sprop);
    }
    assert fmtp == FmtpLine(info);
    sdp, lines := AddLine(sdp, lines, fmtp);
    sdp, lines := AddLine(sdp, lines, "a=control:track0");
    assert lines == Lines(info);
  }

  method AddLine(sdp: string, ghost lines: seq<string>, line: string) returns (r: string, ghost now: seq<string>)
    requires sdp == Joined(lines)
    ensures now == lines + [line] && r == Joined(now)
  {
    JoinedAppend(lines, line);
    r := sdp + (line + CRLF);
    now := lines + [line];
  }

  lemma JoinedNothing()
    ensures Joined([]) == ""
  {}

  // ----- Taking the parameter sets out -----

  // The first line of the text that starts so.
  function FindLine(text: string, start: string): Option<string>
    decreases |text|
  {
    if text == "" then None
    else
      var (line, rest) := Parser.NextLine(text);
      if StartsAt(line, 0, start) then Some(line) else FindLine(rest, start)
  }

  // The value of sprop-parameter-sets: from its name to the next ';' or the end of the line.
  function SpropOf(line: string): Option<string> {
    var pos := Search(line, SPROP, 0);
    SearchIff(line, SPROP, 0, pos);
    if pos.None? then None
    else
      var rest := line[pos.value + |SPROP|..];
      var end := Search(rest, ";", 0);
      SearchIff(rest, ";", 0, end);
      Some(if end.None? then rest else rest[..end.value])
  }

  // The two octet strings whose Base64 forms stand on either side of the first comma.
  function DecodePair(value: string): Option<(Bytes, Bytes)> {
    var comma := Search(value, ",", 0);
    SearchIff(value, ",", 0, comma);
    if comma.None? then None
    else
      match (Base64.Decode(value[..comma.value]), Base64.Decode(value[comma.value + 1..]))
      case (Some(sps), Some(pps)) => Some((sps, pps))
      case _ => None
  }

  function ParameterSetsOf(sdp: string): Option<(Bytes, Bytes)> {
    match FindLine(sdp, FMTP)
    case None => None
    case Some(line) =>
      match SpropOf(line)
      case None => None
      case Some(value) => DecodePair(value)
  }

  // sprop_parameter_sets of the hub.
  function SpropText(sps: Bytes, pps: Bytes): string {
    if sps == [] || pps == [] then "" else Base64.Encode(sps) + ("," + Base64.Encode(pps))
  }

  predicate Free(s: string, c: char) {
    forall i :: 0 <= i < |s| ==> s[i] != c
  }

  lemma FreeIsAbsent(s: string, c: char, p: string)
    requires Free(s, c) && p != "" && p[0] == c
    ensures Search(s, p, 0).None?
  {
    hide Search, StartsAt;
    forall j: nat | j <= |s| ensures !StartsAt(s, j, p) {
      DiffersAt(s, j, p, 0);
    }
    SearchIff(s, p, 0, None);
  }

  lemma SpropTextIsFree(sps: Bytes, pps: Bytes)
    ensures Free(SpropText(sps, pps), ';') && Free(SpropText(sps, pps), '\r')
    ensures Free(Base64.Encode(sps), ',')
  {
    Base64.EncodeShape(sps);
    Base64.EncodeShape(pps);
    hide Base64.Encode, Base64.AllBase64;
    AllBase64IsFree(Base64.Encode(sps));
    AllBase64IsFree(Base64.Encode(pps));
  }

  lemma AllBase64IsFree(s: string)
    requires Base64.AllBase64(s)
    ensures Free(s, ';') && Free(s, '\r') && Free(s, ',')
  {
    forall i | 0 <= i < |s| ensures s[i] != ';' && s[i] != '\r' && s[i] != ',' {
      assert Base64.IsBase64Char(s[i]);
    }
  }

  lemma DecodeSprop(sps: Bytes, pps: Bytes)
    requires sps != [] && pps != []
    ensures DecodePair(SpropText(sps, pps)) == Some((sps, pps))
  {
    hide Search, Base64.Encode, Base64.Decode;
    var a, b := Base64.Encode(sps), Base64.Encode(pps);
    SpropTextIsFree(sps, pps);
    FreeIsAbsent(a, ',', ",");
    FirstSeparator(a, ',', b);
    var value := SpropText(sps, pps);
    assert value[..|a|] == a && value[|a| + 1..] == b;
    Base64.DecodeEncode(sps);
    Base64.DecodeEncode(pps);
  }

  lemma SpropOfLine(info: VideoStreamInfo)
    requires Free(info.sprop, ';')
    ensures SpropOf(FmtpLine(info)) == if info.sprop == "" then None else Some(info.sprop)
  {
    hide Search, StartsAt, Decimal;
    var start, line := FmtpStart(info), FmtpLine(info);
    DecimalChars(info.payloadType);
    assert Free(start, ';');
    if info.sprop == "" {
      FreeIsAbsent(line, ';', SPROP);
    } else {
      forall j: nat | j < |start| ensures !StartsAt(line, j, SPROP) {
        DiffersAt(line, j, SPROP, 0);
      }
      StartsBehind(start, SPROP, info.sprop);
      assert line == start + (SPROP + info.sprop);
      SearchIff(line, SPROP, 0, Some(|start|));
      assert line[|start| + |SPROP|..] == info.sprop;
      FreeIsAbsent(info.sprop, ';', ";");
    }
  }

  lemma StartsBehind(a: string, p: string, b: string)
    ensures StartsAt(a + (p + b), |a|, p)
  {
    assert (a + (p + b))[|a|..|a| + |p|] == p;
  }

  lemma FindLineSkips(line: string, rest: string, start: string)
    requires OneLine(line) && !StartsAt(line, 0, start)
    ensures FindLine(line + (CRLF + rest), start) == FindLine(rest, start)
  {
    hide Search;
    Parser.NextLineOf(line, rest);
  }

  lemma FindLineFinds(line: string, rest: string, start: string)
    requires OneLine(line) && StartsAt(line, 0, start)
    ensures FindLine(line + (CRLF + rest), start) == Some(line)
  {
    hide Search;
    Parser.NextLineOf(line, rest);
  }

  predicate IsOther(line: string, start: string) {
    OneLine(line) && !StartsAt(line, 0, start)
  }

  // The first of the lines that starts so is found.
  lemma {:induction false} FindAmong(lines: seq<string>, k: nat, start: string)
    requires k < |lines| && OneLine(lines[k]) && StartsAt(lines[k], 0, start)
    requires forall i :: 0 <= i < k ==> IsOther(lines[i], start)
    ensures FindLine(Joined(lines), start) == Some(lines[k])
  {
    hide FindLine, OneLine, StartsAt;
    assert Joined(lines) == lines[0] + (CRLF + Joined(lines[1..]));
    if k == 0 {
      FindLineFinds(lines[0], Joined(lines[1..]), start);
    } else {
      assert IsOther(lines[0], start);
      FindAmong(lines[1..], k - 1, start);
      FindLineSkips(lines[0], Joined(lines[1..]), start);
    }
  }

  lemma FreeIsLine(s: string)
    requires Free(s, '\r')
    ensures OneLine(s)
  {
    FreeIsAbsent(s, '\r', CRLF);
  }

  lemma SessionLinesAreFree(info: VideoStreamInfo)
    ensures |FrontLines(info)| == 8 && forall i :: 0 <= i < 6 ==> Free(FrontLines(info)[i], '\r')
  {
    hide Decimal;
  }

  lemma MediaLinesAreFree(info: VideoStreamInfo)
    requires Free(info.sprop, '\r')
    ensures Free(FrontLines(info)[6], '\r') && Free(FrontLines(info)[7], '\r') && Free(FmtpLine(info), '\r')
  {
    hide Decimal;
    DecimalChars(info.payloadType);
    DecimalChars(info.clockRate);
    assert Free(FmtpStart(info), '\r');
  }

  lemma LinesAreLines(info: VideoStreamInfo)
    requires Free(info.sprop, '\r')
    ensures |Lines(info)| == 10 && forall i :: 0 <= i < 9 ==> OneLine(Lines(info)[i])
  {
    SessionLinesAreFree(info);
    MediaLinesAreFree(info);
    hide OneLine, FrontLines, FmtpLine, Free;
    var lines := Lines(info);
    forall i | 0 <= i < 9 ensures OneLine(lines[i]) {
      assert i < 8 ==> lines[i] == FrontLines(info)[i];
      FreeIsLine(lines[i]);
    }
  }

  lemma AtFront(start: string, rest: string)
    ensures StartsAt(start + rest, 0, start)
  {}

  // The three lines that name the payload type are told apart from all before them by their
  // first or their third character.
  lemma LinesFound(info: VideoStreamInfo)
    requires Free(info.sprop, '\r')
    ensures |Lines(info)| == 10
    ensures FindLine(Joined(Lines(info)), VIDEO) == Some(Lines(info)[6])
    ensures FindLine(Joined(Lines(info)), RTPMAP) == Some(Lines(info)[7])
    ensures FindLine(Joined(Lines(info)), FMTP) == Some(Lines(info)[8])
  {
    hide Decimal, OneLine, StartsAt, FindLine, Joined;
    LinesAreLines(info);
    var lines := Lines(info);
    forall i | 0 <= i < 8 ensures IsOther(lines[i], FMTP) {
      DiffersAt(lines[i], 0, FMTP, if lines[i][0] != 'a' then 0 else 2);
    }
    forall i | 0 <= i < 7 ensures IsOther(lines[i], RTPMAP) {
      DiffersAt(lines[i], 0, RTPMAP, if lines[i][0] != 'a' then 0 else 2);
    }
    forall i | 0 <= i < 6 ensures IsOther(lines[i], VIDEO) {
      DiffersAt(lines[i], 0, VIDEO, 0);
    }
    var format := " packetization-mode=1" + if info.sprop == "" then "" else SPROP + info.sprop;
    var rest := Decimal(info.payloadType) + format;
    assert lines[8] == FMTP + rest;
    AtFront(VIDEO, Decimal(info.payloadType));
    AtFront(RTPMAP, Decimal(info.payloadType) + (" H264/" + Decimal(info.clockRate)));
    AtFront(FMTP, rest);
    FindAmong(lines, 6, VIDEO);
    FindAmong(lines, 7, RTPMAP);
    FindAmong(lines, 8, FMTP);
  }

  // Round trip: the description of a stream gives back exactly the octets of its parameter
  // sets, and none if they are not known, whatever payload type and clock rate it names.
  lemma ParameterSetsSurvive(info: VideoStreamInfo, sps: Bytes, pps: Bytes)
    requires info.sprop == SpropText(sps, pps)
    ensures ParameterSetsOf(Joined(Lines(info))) == if sps == [] || pps == [] then None else Some((sps, pps))
  {
    hide FindLine, SpropOf, DecodePair, OneLine, Decimal, FrontLines;
    SpropTextIsFree(sps, pps);
    SpropOfLine(info);
    SpropTextNotEmpty(sps, pps);
    if sps != [] && pps != [] {
      DecodeSprop(sps, pps);
    }
    LinesFound(info);
    assert Lines(info)[8] == FmtpLine(info) by { EighthLine(info); }
  }

  lemma EighthLine(info: VideoStreamInfo)
    ensures |Lines(info)| == 10 && Lines(info)[8] == FmtpLine(info)
  {}

  lemma SpropTextNotEmpty(sps: Bytes, pps: Bytes)
    ensures SpropText(sps, pps) == "" <==> sps == [] || pps == []
  {}

  // ----- What stream a client is told of -----

  const VIDEO := "m=video 0 RTP/AVP "
  const RTPMAP := "a=rtpmap:"

  // The number behind the start of the line that starts so.
  function NumberRead(sdp: string, start: string): Option<int> {
    var line := FindLine(sdp, start);
    if line.Some? && StartsAt(line.value, 0, start) then ReadInt(line.value[|start|..]) else None
  }

  // What the rtpmap line maps its payload type to: the text behind the first space.
  function CodecRead(sdp: string): Option<string> {
    var line := FindLine(sdp, RTPMAP);
    if line.None? then None
    else
      var space := Search(line.value, " ", 0);
      SearchIff(line.value, " ", 0, space);
      if space.None? then None else Some(line.value[space.value + 1..])
  }

  lemma LineNumber(sdp: string, start: string, n: int, rest: string)
    requires FindLine(sdp, start) == Some(start + (Decimal(n) + rest)) && (rest != "" ==> !IsDigit(rest[0]))
    ensures NumberRead(sdp, start) == Some(n)
  {
    hide FindLine, ReadInt, Decimal;
    var line := start + (Decimal(n) + rest);
    assert line[..|start|] == start && line[|start|..] == Decimal(n) + rest;
    ReadDecimal(n, rest);
  }

  // The media line, the rtpmap line and the fmtp line name one payload type, that of the stream,
  // and it is mapped to H.264 with its clock rate.
  lemma StreamIsNamed(info: VideoStreamInfo)
    requires Free(info.sprop, '\r')
    ensures var sdp := Joined(Lines(info));
            && NumberRead(sdp, VIDEO) == Some(info.payloadType)
            && NumberRead(sdp, RTPMAP) == Some(info.payloadType)
            && NumberRead(sdp, FMTP) == Some(info.payloadType)
            && CodecRead(sdp) == Some("H264/" + Decimal(info.clockRate))
  {
    hide FindLine, Decimal, Joined, OneLine, Search, NumberRead;
    LinesFound(info);
    var sdp, lines := Joined(Lines(info)), Lines(info);
    var codec := " H264/" + Decimal(info.clockRate);
    var format := " packetization-mode=1" + if info.sprop == "" then "" else SPROP + info.sprop;
    assert lines[6] == VIDEO + (Decimal(info.payloadType) + "");
    assert lines[7] == RTPMAP + (Decimal(info.payloadType) + codec);
    assert lines[8] == FMTP + (Decimal(info.payloadType) + format);
    LineNumber(sdp, VIDEO, info.payloadType, "");
    LineNumber(sdp, RTPMAP, info.payloadType, codec);
    LineNumber(sdp, FMTP, info.payloadType, format);
    CodecOf(info, lines[7]);
  }

  lemma CodecOf(info: VideoStreamInfo, line: string)
    requires line == RTPMAP + (Decimal(info.payloadType) + (" H264/" + Decimal(info.clockRate)))
    ensures Search(line, " ", 0) == Some(|RTPMAP + Decimal(info.payloadType)|)
    ensures line[|RTPMAP + Decimal(info.payloadType)| + 1..] == "H264/" + Decimal(info.clockRate)
  {
    hide Search, Decimal;
    DecimalChars(info.payloadType);
    var before, codec := RTPMAP + Decimal(info.payloadType), "H264/" + Decimal(info.clockRate);
    assert Free(before, ' ');
    FreeIsAbsent(before, ' ', " ");
    FirstSeparator(before, ' ', codec);
    assert " H264/" == [' '] + "H264/";
    assert line == before + ([' '] + codec);
  }
}
