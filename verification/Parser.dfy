// The RTSP request parser (src/rtsp/parser.cpp), and that it undoes printing a request.
module Parser {
  import opened Prelude
  import opened Text

  datatype Method = Options | Describe | Setup | Play | Pause | Teardown | GetParameter | Unknown

  datatype Field = Field(name: string, value: string)

  // headers holds the fields in the order in which their names first came.
  datatype Request = Request(command: Method, uri: string, cseq: int32, headers: seq<Field>)

  // Thrown: a CSeq that is not an int, at which std::stoi throws.
  datatype Outcome = Malformed | Thrown | Parsed(request: Request)

  function StringToMethod(s: string): Method {
    if EqualFold(s, "OPTIONS") then Options
    else if EqualFold(s, "DESCRIBE") then Describe
    else if EqualFold(s, "SETUP") then Setup
    else if EqualFold(s, "PLAY") then Play
    else if EqualFold(s, "PAUSE") then Pause
    else if EqualFold(s, "TEARDOWN") then Teardown
    else if EqualFold(s, "GET_PARAMETER") then GetParameter
    else Unknown
  }

  // The seven methods under their names, whatever the case of the letters, and nothing else.
  lemma MethodNames(token: string)
    ensures StringToMethod(token).Options? <==> IsInAnyCase(token, "OPTIONS")
    ensures StringToMethod(token).Describe? <==> IsInAnyCase(token, "DESCRIBE")
    ensures StringToMethod(token).Setup? <==> IsInAnyCase(token, "SETUP")
    ensures StringToMethod(token).Play? <==> IsInAnyCase(token, "PLAY")
    ensures StringToMethod(token).Pause? <==> IsInAnyCase(token, "PAUSE")
    ensures StringToMethod(token).Teardown? <==> IsInAnyCase(token, "TEARDOWN")
    ensures StringToMethod(token).GetParameter? <==> IsInAnyCase(token, "GET_PARAMETER")
  {
    InAnyCase(token, "OPTIONS");
    InAnyCase(token, "DESCRIBE");
    InAnyCase(token, "SETUP");
    InAnyCase(token, "PLAY");
    InAnyCase(token, "PAUSE");
    InAnyCase(token, "TEARDOWN");
    InAnyCase(token, "GET_PARAMETER");
    SameLength(token);
  }

  // Names of the same length differ in their first letter.
  lemma SameLength(token: string)
    ensures !(EqualFold(token, "SETUP") && EqualFold(token, "PAUSE"))
    ensures !(EqualFold(token, "DESCRIBE") && EqualFold(token, "TEARDOWN"))
  {
    assert EqualFold(token, "SETUP") ==> Lower(token[0]) == Lower("SETUP"[0]) == 's';
    assert EqualFold(token, "PAUSE") ==> Lower(token[0]) == Lower("PAUSE"[0]) == 'p';
    assert EqualFold(token, "DESCRIBE") ==> Lower(token[0]) == Lower("DESCRIBE"[0]) == 'd';
    assert EqualFold(token, "TEARDOWN") ==> Lower(token[0]) == Lower("TEARDOWN"[0]) == 't';
  }

  // The token is this name in upper case, but for the case of its letters.
  predicate IsInAnyCase(token: string, name: string) {
    |token| == |name| && forall i :: 0 <= i < |name| ==>
      token[i] == name[i] || ('A' <= name[i] <= 'Z' && token[i] as int == name[i] as int + 32)
  }

  predicate UpperCase(name: string) {
    forall i :: 0 <= i < |name| ==> !('a' <= name[i] <= 'z')
  }

  lemma InAnyCase(token: string, name: string)
    requires UpperCase(name)
    ensures EqualFold(token, name) <==> IsInAnyCase(token, name)
  {
    if |token| == |name| {
      forall i | 0 <= i < |name|
        ensures Lower(token[i]) == Lower(name[i]) <==>
                token[i] == name[i] || ('A' <= name[i] <= 'Z' && token[i] as int == name[i] as int + 32)
      {
        assert !('a' <= name[i] <= 'z');
      }
    }
  }

  // A line, and what is left behind its line end.
  function NextLine(data: string): (r: (string, string))
    ensures data != "" ==> |r.1| < |data|
  {
    var p := Search(data, CRLF, 0);
    SearchIff(data, CRLF, 0, p);
    if p.None? then (data, "") else (data[..p.value], data[p.value + 2..])
  }

  // The map's assignment: an earlier value of the same name is replaced.
  function Put(fields: seq<Field>, name: string, value: string): seq<Field> {
    if fields == [] then [Field(name, value)]
    else if fields[0].name == name then [Field(name, value)] + fields[1..]
    else [fields[0]] + Put(fields[1..], name, value)
  }

  function PutLine(fields: seq<Field>, line: string): seq<Field> {
    var colon := Search(line, ":", 0);
    SearchIff(line, ":", 0, colon);
    if colon.None? then fields
    else Put(fields, TrimSpaces(line[..colon.value]), TrimSpaces(line[colon.value + 1..]))
  }

  function ParseFields(data: string, fields: seq<Field>): seq<Field>
    decreases |data|
  {
    if data == "" then fields
    else
      var (line, rest) := NextLine(data);
      if line == "" then fields else ParseFields(rest, PutLine(fields, line))
  }

  // The value under exactly this name,
  function Exact(fields: seq<Field>, name: string): Option<string> {
    if fields == [] then None
    else if fields[0].name == name then Some(fields[0].value)
    else Exact(fields[1..], name)
  }

  // and under this name in any case.
  function Lookup(fields: seq<Field>, name: string): Option<string> {
    if fields == [] then None
    else if EqualFold(fields[0].name, name) then Some(fields[0].value)
    else Lookup(fields[1..], name)
  }

  // None when std::stoi throws.
  function CSeqOf(fields: seq<Field>): Option<int32> {
    var text := if Exact(fields, "CSeq").Some? then Exact(fields, "CSeq") else Lookup(fields, "CSeq");
    if text.None? then Some(0) else Stoi(text.value)
  }

  // The first three tokens of a request line; None if it is not one.
  function ParseLine(line: string): Option<(Method, string)> {
    var space1 := Search(line, " ", 0);
    SearchIff(line, " ", 0, space1);
    if space1.None? then None
    else
      var rest := line[space1.value + 1..];
      var space2 := Search(rest, " ", 0);
      SearchIff(rest, " ", 0, space2);
      if space2.None? || !StartsAt(rest[space2.value + 1..], 0, "RTSP/") then None
      else Some((StringToMethod(line[..space1.value]), rest[..space2.value]))
  }

  function Parse(raw: string): Outcome {
    var (line, data) := NextLine(raw);
    if ParseLine(line).None? then Malformed
    else
      var (command, uri) := ParseLine(line).value;
      var fields := ParseFields(data, []);
      if CSeqOf(fields).None? then Thrown else Parsed(Request(command, uri, CSeqOf(fields).value, fields))
  }

  method ParseRequest(raw: string) returns (o: Outcome)
    ensures o == Parse(raw)
  {
    hide Search, ParseFields, Put, TrimSpaces, CSeqOf, StringToMethod;
    if raw == "" {
      NothingToParse();
      return Malformed;
    }
    var (line, data) := NextLine(raw);
    ghost var fieldText := data;
    if line == "" {
      NothingToParse();
      return Malformed;
    }
    var space1 := Search(line, " ", 0);
    SearchIff(line, " ", 0, space1);
    if space1.None? {
      return Malformed;
    }
    var command := StringToMethod(line[..space1.value]);
    var rest := line[space1.value + 1..];
    var space2 := Search(rest, " ", 0);
    SearchIff(rest, " ", 0, space2);
    if space2.None? {
      return Malformed;
    }
    var uri := rest[..space2.value];
    if !StartsAt(rest[space2.value + 1..], 0, "RTSP/") {
      return Malformed;
    }
    var fields: seq<Field> := [];
    while data != ""
      invariant ParseFields(data, fields) == ParseFields(fieldText, [])
      decreases |data|
    {
      ParseFieldsUnfold(data, fields);
      var (fieldLine, after) := NextLine(data);
      if fieldLine == "" {
        break;
      }
      data := after;
      var colon := Search(fieldLine, ":", 0);
      SearchIff(fieldLine, ":", 0, colon);
      if colon.Some? {
        var name := Trim(fieldLine[..colon.value]);
        var value := Trim(fieldLine[colon.value + 1..]);
        fields := Put(fields, name, value);
      }
    }
    ParseFieldsUnfold(data, fields);
    var cseq := CSeqOf(fields);
    return if cseq.None? then Thrown else Parsed(Request(command, uri, cseq.value, fields));
  }

  lemma NothingToParse()
    ensures NextLine("") == ("", "") && ParseLine("") == None
  {}

  lemma ParseFieldsUnfold(data: string, fields: seq<Field>)
    ensures data == "" ==> ParseFields(data, fields) == fields
    ensures data != "" && NextLine(data).0 == "" ==> ParseFields(data, fields) == fields
    ensures data != "" && NextLine(data).0 != "" ==>
              ParseFields(data, fields) == ParseFields(NextLine(data).1, PutLine(fields, NextLine(data).0))
  {}

  // ----- Printing a request -----

  function FieldLine(f: Field): string {
    f.name + (": " + f.value)
  }

  function FieldLines(fields: seq<Field>): seq<string> {
    if fields == [] then [] else [FieldLine(fields[0])] + FieldLines(fields[1..])
  }

  function RequestLine(token: string, uri: string): string {
    token + (" " + (uri + (" " + "RTSP/1.0")))
  }

  // The request as a client sends it, with any spelling of the method.
  function Render(token: string, r: Request): string {
    RequestLine(token, r.uri) + (CRLF + Head(FieldLines(r.headers)))
  }

  predicate Word(s: string) {
    OneLine(s) && Search(s, " ", 0).None?
  }

  predicate GoodField(f: Field) {
    && OneLine(f.name) && Trimmed(f.name) && Search(f.name, ":", 0).None?
    && OneLine(f.value) && Trimmed(f.value)
  }

  predicate GoodFields(fields: seq<Field>) {
    && (forall i :: 0 <= i < |fields| ==> GoodField(fields[i]))
    && forall i, j :: 0 <= i < j < |fields| ==> !EqualFold(fields[i].name, fields[j].name)
  }

  lemma OneLineJoin(a: string, c: char, b: string)
    requires OneLine(a) && OneLine(b) && c != '\r' && c != '\n'
    ensures OneLine(a + ([c] + b))
  {
    hide Search, StartsAt;
    var s := a + ([c] + b);
    SearchIff(a, CRLF, 0, None);
    SearchIff(b, CRLF, 0, None);
    forall j: nat | j < |s| ensures !StartsAt(s, j, CRLF) {
      AtLineEnd(s, j);
      if j < |a| {
        assert !StartsAt(a, j, CRLF);
        AtLineEnd(a, j);
      } else if j > |a| {
        assert !StartsAt(b, j - |a| - 1, CRLF);
        AtLineEnd(b, j - |a| - 1);
      }
    }
    AtLineEnd(s, |s|);
    SearchIff(s, CRLF, 0, None);
  }

  lemma ParsePrintedLine(token: string, uri: string)
    requires Word(token) && Word(uri)
    ensures OneLine(RequestLine(token, uri)) && ParseLine(RequestLine(token, uri)) == Some((StringToMethod(token), uri))
  {
    hide Search, StringToMethod, ParseLine;
    var version := "RTSP/1.0";
    assert OneLine(version) by { VersionIsLine(); }
    OneLineJoin(uri, ' ', version);
    OneLineJoin(token, ' ', uri + (" " + version));
    assert "RTSP/" + "1.0" == version;
    ParseLineOf(RequestLine(token, uri), token, uri, "1.0");
  }

  lemma VersionIsLine()
    ensures OneLine("RTSP/1.0")
  {
    var v := "RTSP/1.0";
    assert forall j :: 0 <= j < |v| ==> v[j] != '\r';
    forall j: nat | j <= |v| ensures !StartsAt(v, j, CRLF) {
      AtLineEnd(v, j);
    }
    SearchIff(v, CRLF, 0, None);
  }

  lemma FieldLineIsLine(f: Field)
    requires GoodField(f)
    ensures OneLine(FieldLine(f)) && FieldLine(f) != ""
  {
    hide Search;
    assert ": " + f.value == [':'] + ([' '] + f.value);
    NothingIsLine();
    assert "" + ([' '] + f.value) == [' '] + f.value;
    OneLineJoin("", ' ', f.value);
    OneLineJoin(f.name, ':', [' '] + f.value);
  }

  lemma PutPrintedLine(fields: seq<Field>, f: Field)
    requires GoodField(f)
    ensures PutLine(fields, FieldLine(f)) == Put(fields, f.name, f.value)
  {
    hide Search, Put, TrimSpaces;
    assert FieldLine(f) == f.name + ([':'] + (" " + f.value)) by { FieldLineParts(f); }
    FirstSeparator(f.name, ':', " " + f.value);
    assert FieldLine(f)[..|f.name|] == f.name;
    assert FieldLine(f)[|f.name| + 1..] == " " + f.value;
    TrimsAway("", f.name);
    TrimsAway(" ", f.value);
    EmptyPlus(f.name);
  }

  lemma FieldLineParts(f: Field)
    ensures FieldLine(f) == f.name + ([':'] + (" " + f.value))
  {
    assert ": " + f.value == [':'] + (" " + f.value);
  }

  lemma TrimsAway(before: string, s: string)
    requires AllSpace(before) && Trimmed(s)
    ensures TrimSpaces(before + s) == s
  {
    hide TrimSpaces;
    TrimIff(before, s, "");
    assert before + s + "" == before + s;
  }

  lemma {:induction false} PutNew(fields: seq<Field>, f: Field)
    requires forall i :: 0 <= i < |fields| ==> fields[i].name != f.name
    ensures Put(fields, f.name, f.value) == fields + [f]
  {
    if fields != [] {
      assert fields[0].name != f.name;
      PutNew(fields[1..], f);
      FirstAndRest(fields, f);
    } else {
      EmptyPlus([f]);
    }
  }

  lemma FirstAndRest(fields: seq<Field>, f: Field)
    requires fields != []
    ensures [fields[0]] + (fields[1..] + [f]) == fields + [f]
  {}

  // Whatever follows the empty line.
  lemma {:induction false} ParsePrintedFields(fields: seq<Field>, k: nat, rest: string)
    requires GoodFields(fields) && k <= |fields|
    ensures ParseFields(Head(FieldLines(fields[k..])) + rest, fields[..k]) == fields
    decreases |fields| - k
  {
    hide Search, NextLine, PutLine, FieldLine, EqualFold, GoodField;
    var data := Head(FieldLines(fields[k..])) + rest;
    if k == |fields| {
      NothingIsLine();
      NextLineOf("", rest);
      assert data == "" + (CRLF + rest);
      assert fields[..k] == fields;
    } else {
      var f := fields[k];
      var more := Head(FieldLines(fields[k + 1..])) + rest;
      assert fields[k..] == [f] + fields[k + 1..];
      assert FieldLines(fields[k..]) == [FieldLine(f)] + FieldLines(fields[k + 1..]);
      assert data == FieldLine(f) + (CRLF + more);
      FieldLineIsLine(f);
      NextLineOf(FieldLine(f), more);
      PutPrintedLine(fields[..k], f);
      assert forall i :: 0 <= i < k ==> fields[i].name != f.name by { NamesDiffer(fields, k); }
      PutNew(fields[..k], f);
      assert fields[..k] + [f] == fields[..k + 1];
      ParsePrintedFields(fields, k + 1, rest);
    }
  }

  lemma NextLineOf(line: string, rest: string)
    requires OneLine(line)
    ensures NextLine(line + (CRLF + rest)) == (line, rest)
  {
    hide Search;
    LineEnd(line, rest);
    var data := line + (CRLF + rest);
    assert data[..|line|] == line && data[|line| + 2..] == rest;
  }

  lemma NothingIsLine()
    ensures OneLine("") && NextLine(CRLF).0 == ""
  {
    SearchIff("", CRLF, 0, None);
    NextLineOf("", "");
    assert "" + (CRLF + "") == CRLF;
  }

  lemma NamesDiffer(fields: seq<Field>, k: nat)
    requires GoodFields(fields) && k < |fields|
    ensures forall i :: 0 <= i < k ==> fields[i].name != fields[k].name
  {
    forall i | 0 <= i < k ensures fields[i].name != fields[k].name {
      assert !EqualFold(fields[i].name, fields[k].name);
    }
  }

  // The token names the method; any token that names none of the seven names an unknown one.
  predicate Names(token: string, m: Method) {
    match m
    case Options => IsInAnyCase(token, "OPTIONS")
    case Describe => IsInAnyCase(token, "DESCRIBE")
    case Setup => IsInAnyCase(token, "SETUP")
    case Play => IsInAnyCase(token, "PLAY")
    case Pause => IsInAnyCase(token, "PAUSE")
    case Teardown => IsInAnyCase(token, "TEARDOWN")
    case GetParameter => IsInAnyCase(token, "GET_PARAMETER")
    case Unknown =>
      && !IsInAnyCase(token, "OPTIONS") && !IsInAnyCase(token, "DESCRIBE") && !IsInAnyCase(token, "SETUP")
      && !IsInAnyCase(token, "PLAY") && !IsInAnyCase(token, "PAUSE") && !IsInAnyCase(token, "TEARDOWN")
      && !IsInAnyCase(token, "GET_PARAMETER")
  }

  lemma NamesIff(token: string, m: Method)
    ensures Names(token, m) <==> StringToMethod(token) == m
  {
    MethodNames(token);
    hide StringToMethod, IsInAnyCase;
  }

  // Round trip: a request printed under any spelling of its method's name parses to itself, if
  // its cseq is what its headers say.
  lemma ParsePrinted(token: string, r: Request)
    requires Word(token) && Names(token, r.command) && Word(r.uri)
    requires GoodFields(r.headers) && CSeqOf(r.headers) == Some(r.cseq)
    ensures Parse(Render(token, r)) == Parsed(r)
  {
    hide Search, NextLine, ParseLine, ParseFields, CSeqOf, StringToMethod, Names, RequestLine, Head, FieldLines;
    NamesIff(token, r.command);
    ParsePrintedLine(token, r.uri);
    NextLineOf(RequestLine(token, r.uri), Head(FieldLines(r.headers)));
    assert r.headers[..0] == [] && r.headers[0..] == r.headers;
    ParsePrintedFields(r.headers, 0, "");
    assert Head(FieldLines(r.headers)) + "" == Head(FieldLines(r.headers));
  }

  // And it is, when a CSeq field holds the printed number.
  lemma CSeqOfPrinted(fields: seq<Field>, k: nat, n: int32)
    requires GoodFields(fields) && k < |fields| && EqualFold(fields[k].name, "CSeq") && fields[k].value == Decimal(n)
    ensures CSeqOf(fields) == Some(n)
  {
    hide GoodField, Decimal, Stoi;
    OnlyOne(fields, k, "CSeq");
    StoiDecimal(n, "");
    assert Decimal(n) + "" == Decimal(n);
  }

  // A name that no other equals but for case is looked up where it is.
  lemma OnlyOne(fields: seq<Field>, k: nat, name: string)
    requires GoodFields(fields) && k < |fields| && EqualFold(fields[k].name, name)
    ensures Lookup(fields, name) == Some(fields[k].value)
    ensures Exact(fields, name).Some? ==> Exact(fields, name) == Some(fields[k].value)
  {
    if k > 0 {
      assert !EqualFold(fields[0].name, fields[k].name);
      assert fields[1..][k - 1] == fields[k];
      OnlyOne(fields[1..], k - 1, name);
    } else {
      forall i | 0 < i < |fields| ensures fields[i].name != name {
        assert !EqualFold(fields[0].name, fields[i].name);
      }
      NotExact(fields[1..], name);
    }
  }

  // Nothing is looked up if and only if no name equals it but for case. A request without a CSeq
  // has number 0, and a CSeq in just this spelling counts before any other.
  lemma LookupIff(fields: seq<Field>, name: string)
    ensures Lookup(fields, name).None? <==> forall i :: 0 <= i < |fields| ==> !EqualFold(fields[i].name, name)
  {
    if fields != [] && !EqualFold(fields[0].name, name) {
      LookupIff(fields[1..], name);
      forall i | 0 < i < |fields| ensures fields[i] == fields[1..][i - 1] {}
    }
  }

  lemma CSeqIs(fields: seq<Field>)
    ensures (forall i :: 0 <= i < |fields| ==> !EqualFold(fields[i].name, "CSeq")) ==> CSeqOf(fields) == Some(0)
    ensures Exact(fields, "CSeq").Some? ==> CSeqOf(fields) == Stoi(Exact(fields, "CSeq").value)
    ensures Exact(fields, "CSeq").None? && Lookup(fields, "CSeq").Some? ==>
              CSeqOf(fields) == Stoi(Lookup(fields, "CSeq").value)
  {
    hide EqualFold, Stoi;
    LookupIff(fields, "CSeq");
    ExactIsFold(fields, "CSeq");
  }

  lemma ExactIsFold(fields: seq<Field>, name: string)
    ensures Exact(fields, name).Some? ==> exists i :: 0 <= i < |fields| && EqualFold(fields[i].name, name)
  {
    if fields != [] {
      if fields[0].name == name {
        assert EqualFold(fields[0].name, name);
      } else {
        ExactIsFold(fields[1..], name);
        if Exact(fields[1..], name).Some? {
          var i :| 0 <= i < |fields| - 1 && EqualFold(fields[1..][i].name, name);
          assert EqualFold(fields[i + 1].name, name);
        }
      }
    }
  }

  lemma NotExact(fields: seq<Field>, name: string)
    requires forall i :: 0 <= i < |fields| ==> fields[i].name != name
    ensures Exact(fields, name) == None
  {}

  // ----- What is a request at all -----

  // A token and a URI without spaces, and a version that begins like that of RTSP.
  predicate IsRequestLine(line: string, token: string, uri: string, version: string) {
    && Search(token, " ", 0).None? && Search(uri, " ", 0).None?
    && line == token + (" " + (uri + (" " + ("RTSP/" + version))))
  }

  lemma ParseLineOf(line: string, token: string, uri: string, version: string)
    requires IsRequestLine(line, token, uri, version)
    ensures ParseLine(line) == Some((StringToMethod(token), uri))
  {
    hide Search, StringToMethod;
    var last := "RTSP/" + version;
    var rest := uri + (" " + last);
    FirstSeparator(token, ' ', rest);
    FirstSeparator(uri, ' ', last);
    assert line[..|token|] == token && line[|token| + 1..] == rest;
    assert rest[..|uri|] == uri && rest[|uri| + 1..] == last;
    assert last[..5] == "RTSP/";
  }

  lemma SpaceAt(s: string, j: nat)
    ensures StartsAt(s, j, " ") <==> j < |s| && s[j] == ' '
  {
    assert j < |s| ==> s[j..j + 1] == [s[j]];
  }

  lemma CutAtSpace(s: string, k: nat)
    requires k < |s| && s[k] == ' '
    ensures s == s[..k] + (" " + s[k + 1..])
  {}

  lemma SpacesOfPrefix(s: string, k: nat, j: nat)
    requires k <= |s| && j < k
    ensures StartsAt(s[..k], j, " ") == StartsAt(s, j, " ")
  {
    hide StartsAt;
    SpaceAt(s, j);
    SpaceAt(s[..k], j);
  }

  lemma NoneBefore(s: string, k: nat)
    requires Search(s, " ", 0) == Some(k)
    ensures k < |s| && Search(s[..k], " ", 0).None? && s == s[..k] + (" " + s[k + 1..])
  {
    hide *;
    SearchIff(s, " ", 0, Some(k));
    SpaceAt(s, k);
    assert Absent(s[..k], " ", 0, k + 1) by { AbsentBefore(s, k); }
    SearchIff(s[..k], " ", 0, None);
    CutAtSpace(s, k);
  }

  lemma AbsentBefore(s: string, k: nat)
    requires k <= |s| && Absent(s, " ", 0, k)
    ensures Absent(s[..k], " ", 0, k + 1)
  {
    hide StartsAt;
    forall j | 0 <= j < k + 1 ensures !StartsAt(s[..k], j, " ") {
      if j < k {
        SpacesOfPrefix(s, k, j);
      } else {
        SpaceAt(s[..k], j);
      }
    }
  }

  lemma Versioned(s: string)
    requires StartsAt(s, 0, "RTSP/")
    ensures |s| >= 5 && s == "RTSP/" + s[5..]
  {}

  lemma LineOfParse(line: string) returns (token: string, uri: string, version: string)
    requires ParseLine(line).Some?
    ensures IsRequestLine(line, token, uri, version)
  {
    hide Search, StringToMethod, StartsAt;
    var k := Search(line, " ", 0).value;
    NoneBefore(line, k);
    var rest := line[k + 1..];
    var m := Search(rest, " ", 0).value;
    NoneBefore(rest, m);
    var last := rest[m + 1..];
    Versioned(last);
    token, uri, version := line[..k], rest[..m], last[5..];
  }

  // A text is malformed if and only if its first line, up to the first line end or to its end,
  // is no request line; and otherwise token and URI are those of the line.
  lemma MalformedIff(raw: string, line: string)
    requires OneLine(line) && (raw == line || exists rest: string :: raw == line + (CRLF + rest))
    ensures Parse(raw).Malformed? <==> forall t, u, v: string :: !IsRequestLine(line, t, u, v)
    ensures forall t, u, v: string :: IsRequestLine(line, t, u, v) && Parse(raw).Parsed? ==>
              Names(t, Parse(raw).request.command) && Parse(raw).request.uri == u
  {
    hide Search, StringToMethod, ParseFields, CSeqOf, ParseLine, Names, IsRequestLine;
    assert NextLine(raw).0 == line by { FirstLine(raw, line); }
    forall t, u, v: string | IsRequestLine(line, t, u, v)
      ensures ParseLine(line) == Some((StringToMethod(t), u)) && Names(t, StringToMethod(t))
    {
      ParseLineOf(line, t, u, v);
      NamesIff(t, StringToMethod(t));
    }
    if ParseLine(line).Some? {
      var t, u, v := LineOfParse(line);
    }
  }

  lemma FirstLine(raw: string, line: string)
    requires OneLine(line) && (raw == line || exists rest: string :: raw == line + (CRLF + rest))
    ensures NextLine(raw).0 == line
  {
    hide Search;
    if raw != line {
      var rest: string :| raw == line + (CRLF + rest);
      NextLineOf(line, rest);
    }
  }

  // What the last of the lines with this name says; names and values are free of white space at
  // both ends, and a line without a colon says nothing.
  function LastValue(lines: seq<string>, name: string): Option<string> {
    if lines == [] then None
    else
      var later := LastValue(lines[1..], name);
      var colon := Search(lines[0], ":", 0);
      SearchIff(lines[0], ":", 0, colon);
      if later.Some? then later
      else if colon.Some? && TrimSpaces(lines[0][..colon.value]) == name
      then Some(TrimSpaces(lines[0][colon.value + 1..]))
      else None
  }

  lemma ExactAfterPut(fields: seq<Field>, name: string, value: string, other: string)
    ensures Exact(Put(fields, name, value), other) == if other == name then Some(value) else Exact(fields, other)
  {
    if fields != [] && fields[0].name != name {
      ExactAfterPut(fields[1..], name, value, other);
      assert ([fields[0]] + Put(fields[1..], name, value))[1..] == Put(fields[1..], name, value);
    } else if fields != [] {
      assert ([Field(name, value)] + fields[1..])[1..] == fields[1..];
    }
  }

  // Of lines with the same name the last one counts, and those behind the empty line do not.
  lemma {:induction false} LastLineCounts(lines: seq<string>, rest: string, fields: seq<Field>, name: string)
    requires AllLines(lines)
    ensures Exact(ParseFields(Head(lines) + rest, fields), name) ==
              if LastValue(lines, name).Some? then LastValue(lines, name) else Exact(fields, name)
  {
    hide Search, NextLine, TrimSpaces, OneLine, Exact, Put;
    var data := Head(lines) + rest;
    ParseFieldsUnfold(data, fields);
    if lines == [] {
      NothingIsLine();
      NextLineOf("", rest);
      assert data == "" + (CRLF + rest);
    } else {
      var more := Head(lines[1..]) + rest;
      assert data == lines[0] + (CRLF + more);
      NextLineOf(lines[0], more);
      LastLineCounts(lines[1..], rest, PutLine(fields, lines[0]), name);
      var colon := Search(lines[0], ":", 0);
      SearchIff(lines[0], ":", 0, colon);
      if colon.Some? {
        ExactAfterPut(fields, TrimSpaces(lines[0][..colon.value]), TrimSpaces(lines[0][colon.value + 1..]), name);
      }
    }
  }

  // ----- What parsing never lets through -----

  lemma OneLinePart(s: string, from: nat, to: nat)
    requires OneLine(s) && from <= to <= |s|
    ensures OneLine(s[from..to])
  {
    hide Search, StartsAt;
    var part := s[from..to];
    SearchIff(s, CRLF, 0, None);
    forall j: nat | j <= |part| ensures !StartsAt(part, j, CRLF) {
      AtLineEnd(part, j);
      AtLineEnd(s, from + j);
      assert from + j <= |s| && !StartsAt(s, from + j, CRLF);
    }
    SearchIff(part, CRLF, 0, None);
  }

  // The URI of a parsed request holds no space and no line end, so it cannot end a header line
  // of a response that quotes it.
  lemma ParsedUriIsWord(raw: string)
    requires Parse(raw).Parsed?
    ensures Word(Parse(raw).request.uri)
  {
    hide Search, StartsAt, NextLine, ParseFields, CSeqOf, StringToMethod, OneLine;
    var line := NextLine(raw).0;
    NextLineIsLine(raw);
    var space1 := Search(line, " ", 0).value;
    NoneBefore(line, space1);
    var rest := line[space1 + 1..];
    NoneBefore(rest, Search(rest, " ", 0).value);
    OneLinePart(line, space1 + 1, |line|);
    assert line[space1 + 1..|line|] == rest;
    OneLinePart(rest, 0, Search(rest, " ", 0).value);
  }

  lemma NextLineIsLine(data: string)
    ensures OneLine(NextLine(data).0)
  {
    var p := Search(data, CRLF, 0);
    SearchIff(data, CRLF, 0, p);
    if p.Some? {
      var line := data[..p.value];
      forall j: nat | j <= |line| ensures !StartsAt(line, j, CRLF) {
        AtLineEnd(line, j);
        AtLineEnd(data, j);
      }
      SearchIff(line, CRLF, 0, None);
    }
  }
}
