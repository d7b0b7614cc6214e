/** The request parser of the HTTP example. */
module HttpParse {
  import opened HttpText
  import opened Decimal

  /** error is 0 for an accepted request; close is the persistence decision. */
  datatype Request = Request(error: nat, head: bool, close: bool, http10: bool, path: string)

  const UINT64_LIMIT: nat := 0x1_0000_0000_0000_0000

  function Rejected(code: nat): Request {
    Request(code, false, true, false, "")
  }

  predicate EndsWithTerminator(raw: string) {
    |raw| >= 4 && raw[|raw| - 4..] == TERMINATOR
  }

  /** Printable ASCII, and of the controls only CR, LF and TAB. */
  predicate IsPlain(c: char) {
    c < 127 as char && (c >= ' ' || c == '\r' || c == '\n' || c == '\t')
  }

  predicate AllPlain(s: string) {
    forall i :: 0 <= i < |s| ==> IsPlain(s[i])
  }

  // ----- the start line ----------------------------------------------------

  datatype StartLine = NoStart | StartLine(verb: string, target: string, version: string)

  /** Three nonempty words separated by exactly two spaces. */
  function SplitStart(start: string): StartLine {
    var sp1 := Find(start, " ", 0);
    if sp1 == |start| then NoStart
    else
      var sp2 := Find(start, " ", sp1 + 1);
      if sp2 == |start| || Contains(start[sp2 + 1..], " ") || sp1 == 0 || sp2 == sp1 + 1 || sp2 + 1 == |start|
      then NoStart
      else StartLine(start[..sp1], start[sp1 + 1..sp2], start[sp2 + 1..])
  }

  predicate GoodTarget(target: string) {
    target != "" && target[0] == '/' && !Contains(target, "#") && !Contains(target, " ")
  }

  function VersionError(version: string): nat {
    if version == "HTTP/1.1" || version == "HTTP/1.0" then 0
    else if |version| >= 5 && version[..5] == "HTTP/" then 505 else 400
  }

  // ----- header fields -----------------------------------------------------

  /** The lines from position `at` up to the first empty one.  raw ends in CRLF, so
      a search for a line end never fails. */
  function HeaderLines(raw: string, at: nat): seq<string>
    requires |raw| >= 2 && raw[|raw| - 2..] == CRLF && at <= |raw|
    decreases |raw| - at
  {
    if at >= |raw| - 2 then []
    else
      LineEndExists(raw, at);
      var end := Find(raw, CRLF, at);
      if end == at then [] else [raw[at..end]] + HeaderLines(raw, end + 2)
  }

  lemma LineEndExists(raw: string, at: nat)
    requires |raw| >= 2 && raw[|raw| - 2..] == CRLF && at <= |raw| - 2
    ensures Find(raw, CRLF, at) <= |raw| - 2
  {
    assert MatchesAt(raw, CRLF, |raw| - 2);
  }

  datatype Field = NoField | Field(name: string, value: string)

  predicate IsControl(c: char) {
    c < ' ' && c != '\t'
  }

  /** name ":" value, the name lower-cased and the value trimmed. */
  function ReadLine(line: string): Field {
    var colon := Find(line, ":", 0);
    if colon == |line| || !IsTokenName(line[..colon]) then NoField
    else
      var value := Trim(line[colon + 1..]);
      if exists i :: 0 <= i < |value| && IsControl(value[i]) then NoField
      else Field(Lower(line[..colon]), value)
  }

  datatype Headers = Headers(error: nat, hosts: nat, lengths: nat, body: bool, connection: string)

  const NoHeaders := Headers(0, 0, 0, false, "")

  predicate IsLength(value: string) {
    value != "" && AllDigits(value) && Number(value) < UINT64_LIMIT
  }

  function AddConnection(connection: string, value: string): string {
    if connection == "" then value else connection + "," + value
  }

  /** What one header field contributes. */
  function AddField(h: Headers, field: Field): Headers {
    if field.NoField? then h.(error := 400)
    else if field.name == "host" then
      h.(hosts := h.hosts + 1, error := if h.hosts != 0 || field.value == "" then 400 else 0)
    else if field.name == "content-length" then
      if h.lengths != 0 || !IsLength(field.value) then h.(lengths := h.lengths + 1, error := 400)
      else h.(lengths := 1, body := h.body || Number(field.value) != 0)
    else if field.name == "transfer-encoding" then h.(error := 501)
    else if field.name == "connection" then h.(connection := AddConnection(h.connection, field.value))
    else h
  }

  /** Fields are read in order up to the first error. */
  function AddLines(h: Headers, lines: seq<string>): Headers
    decreases |lines|
  {
    if h.error != 0 || lines == [] then h else AddLines(AddField(h, ReadLine(lines[0])), lines[1..])
  }

  // ----- the whole request -------------------------------------------------

  predicate IsVersion11(start: StartLine) {
    start.StartLine? && start.version == "HTTP/1.1"
  }

  function FirstLine(raw: string): string {
    raw[..Find(raw, CRLF, 0)]
  }

  /** The field lines of a request that ends in an empty line. */
  function FieldLines(raw: string): seq<string>
    requires EndsWithTerminator(raw)
  {
    var first := Find(raw, CRLF, 0);
    assert raw[|raw| - 2..] == CRLF;
    LineEndExists(raw, 0);
    HeaderLines(raw, first + 2)
  }

  /** The verdict once the start line is accepted. */
  ghost function Decide(start: StartLine, h: Headers): Request
    requires start.StartLine?
  {
    var http11 := start.version == "HTTP/1.1";
    var base := Request(0, start.verb == "HEAD", !http11, !http11, start.target[..Find(start.target, "?", 0)]);
    if h.error != 0 then base.(error := h.error)
    else if http11 && h.hosts != 1 then base.(error := 400)
    else
      base.(close := Names(h.connection, "close") || (!http11 && !Names(h.connection, "keep-alive")),
            error := if h.body then 413 else if start.verb != "GET" && start.verb != "HEAD" then 405 else 0)
  }

  ghost function Parse(raw: string): Request {
    if !EndsWithTerminator(raw) || !AllPlain(raw) then Rejected(400)
    else
      var start := SplitStart(FirstLine(raw));
      if start.NoStart? || !IsTokenName(start.verb) || !GoodTarget(start.target) then Rejected(400)
      else if VersionError(start.version) != 0 then Rejected(VersionError(start.version))
      else Decide(start, AddLines(NoHeaders, FieldLines(raw)))
  }

  // ----- what acceptance means ---------------------------------------------

  /** An accepted request is at least eighteen octets long. */
  lemma AcceptedLength(raw: string)
    requires Parse(raw).error == 0
    ensures |raw| >= 18
  {
    hide Parse, SplitStart, VersionError, Find;
    AcceptedStart(raw);
    VersionLength(FirstLine(raw));
    FirstLineEnds(raw);
  }

  lemma AcceptedStart(raw: string)
    requires Parse(raw).error == 0
    ensures EndsWithTerminator(raw)
    ensures var start := SplitStart(FirstLine(raw));
            start.StartLine? && VersionError(start.version) == 0 && |start.verb| >= 3
  {
    hide AddLines, FieldLines, Names, IsTokenName, GoodTarget, AllPlain, SplitStart, VersionError, Find;
  }

  /** The first line leaves room for the terminator. */
  lemma FirstLineEnds(raw: string)
    requires EndsWithTerminator(raw)
    ensures |FirstLine(raw)| + 4 <= |raw|
  {
    hide Find;
    assert raw[|raw| - 4..][..2] == CRLF;
    assert raw[|raw| - 4..|raw| - 2] == CRLF;
    assert MatchesAt(raw, CRLF, |raw| - 4);
  }

  lemma VersionLength(start: string)
    requires SplitStart(start).StartLine? && VersionError(SplitStart(start).version) == 0
    ensures |start| >= 11 + |SplitStart(start).verb|
  {
  }

  const Shortest: string := "GET / HTTP/1.0\r\n\r\n"

  /** The bound is reached by a request that is accepted, and answered with a close. */
  lemma ShortestIsAccepted()
    ensures |Shortest| == 18 && Parse(Shortest) == Request(0, false, true, true, "/")
  {
    hide Names, SplitStart, AllPlain, HeaderLines, GoodTarget, IsTokenName, Find;
    ShortestFirstLine();
    ShortestSplit();
    ShortestText();
    ShortestDecision();
  }

  lemma ShortestText()
    ensures EndsWithTerminator(Shortest) && AllPlain(Shortest) && IsTokenName("GET")
    ensures HeaderLines(Shortest, 16) == []
  {
    hide Find;
    assert Shortest[14..] == TERMINATOR;
    assert Shortest[16..] == CRLF;
  }

  lemma ShortestDecision()
    ensures Decide(StartLine("GET", "/", "HTTP/1.0"), AddLines(NoHeaders, [])) == Request(0, false, true, true, "/")
  {
    hide Names, Find;
    EmptyNamesNothing("close");
    EmptyNamesNothing("keep-alive");
    FindAbsent("/", "?");
    assert "/"[..1] == "/";
  }

  lemma ShortestFirstLine()
    ensures Find(Shortest, CRLF, 0) == 14 && Shortest[..14] == "GET / HTTP/1.0"
  {
    hide Find;
    var start := "GET / HTTP/1.0";
    assert Shortest == start + CRLF + CRLF;
    LineEndsAtCrlf(start, CRLF);
  }

  lemma ShortestSplit()
    ensures SplitStart("GET / HTTP/1.0") == StartLine("GET", "/", "HTTP/1.0")
    ensures GoodTarget("/")
  {
    hide Find, SplitStart;
    StartLineSplits("GET", "/", "HTTP/1.0");
    assert "GET" + " " + "/" + " " + "HTTP/1.0" == "GET / HTTP/1.0";
    FindAbsent("/", "#");
    FindAbsent("/", " ");
  }

  /** Three nonempty words without spaces are read back from their start line. */
  lemma StartLineSplits(verb: string, target: string, version: string)
    requires verb != "" && target != "" && version != ""
    requires ' ' !in verb && ' ' !in target && ' ' !in version
    ensures SplitStart(verb + " " + target + " " + version) == StartLine(verb, target, version)
  {
    hide Find, SplitStart;
    var s := verb + " " + target + " " + version;
    TwoSpaces(verb, target, version);
    assert s[..|verb|] == verb;
    assert s[|verb| + 1..|verb| + 1 + |target|] == target;
    assert s[|verb| + |target| + 2..] == version;
    FindAbsent(version, " ");
    SplitsAt(s, |verb|, |verb| + 1 + |target|);
  }

  lemma TwoSpaces(verb: string, target: string, version: string)
    requires ' ' !in verb && ' ' !in target
    ensures Find(verb + " " + target + " " + version, " ", 0) == |verb|
    ensures Find(verb + " " + target + " " + version, " ", |verb| + 1) == |verb + " " + target|
  {
    hide Find;
    Regroup(verb, " ", target, " ", version);
    FindSpace(verb, target + " " + version, 0);
    SecondWord(verb, target);
    FindSpace(verb + " " + target, version, |verb| + 1);
  }

  lemma Regroup(a: string, b: string, c: string, d: string, e: string)
    ensures a + b + c + d + e == a + b + (c + d + e)
  {
  }

  lemma SecondWord(verb: string, target: string)
    requires ' ' !in target
    ensures forall i :: |verb| + 1 <= i < |verb + " " + target| ==> (verb + " " + target)[i] != ' '
  {
    forall i | |verb| + 1 <= i < |verb + " " + target|
      ensures (verb + " " + target)[i] != ' '
    {
      assert (verb + " " + target)[i] == target[i - |verb| - 1];
    }
  }

  /** A line with just two spaces, neither first, last nor adjacent. */
  lemma SplitsAt(s: string, sp1: nat, sp2: nat)
    requires 0 < sp1 && sp1 + 1 < sp2 && sp2 + 1 < |s|
    requires Find(s, " ", 0) == sp1 && Find(s, " ", sp1 + 1) == sp2
    requires Find(s[sp2 + 1..], " ", 0) == |s| - sp2 - 1
    ensures SplitStart(s) == StartLine(s[..sp1], s[sp1 + 1..sp2], s[sp2 + 1..])
  {
    hide Find;
  }

  /** The values of the Connection fields among some lines, in order. */
  function ConnectionValues(lines: seq<string>): seq<string> {
    if lines == [] then []
    else
      var field := ReadLine(lines[0]);
      (if field.Field? && field.name == "connection" then [field.value] else []) + ConnectionValues(lines[1..])
  }

  /** Some Connection field names the option. */
  ghost predicate HasOption(values: seq<string>, option: string) {
    exists i :: 0 <= i < |values| && Names(values[i], option)
  }

  lemma HasOptionCons(values: seq<string>, v: string, option: string)
    ensures HasOption([v] + values, option) <==> Names(v, option) || HasOption(values, option)
  {
    var all := [v] + values;
    assert all[0] == v;
    if HasOption(values, option) {
      var i :| 0 <= i < |values| && Names(values[i], option);
      assert all[i + 1] == values[i];
    }
  }

  lemma {:induction false} ConnectionCollects(h: Headers, lines: seq<string>, option: string)
    requires AddLines(h, lines).error == 0 && option != ""
    ensures Names(AddLines(h, lines).connection, option) <==>
              Names(h.connection, option) || HasOption(ConnectionValues(lines), option)
    decreases |lines|
  {
    hide Names, ReadLine;
    if lines != [] && h.error == 0 {
      var field := ReadLine(lines[0]);
      var h1 := AddField(h, field);
      ConnectionCollects(h1, lines[1..], option);
      if field.Field? && field.name == "connection" {
        EmptyNamesNothing(option);
        NamesJoin(h.connection, field.value, option);
        HasOptionCons(ConnectionValues(lines[1..]), field.value, option);
      } else {
        assert ConnectionValues(lines) == ConnectionValues(lines[1..]);
        OtherFieldsKeepConnection(h, field);
      }
    }
  }

  lemma OtherFieldsKeepConnection(h: Headers, field: Field)
    requires !(field.Field? && field.name == "connection")
    ensures AddField(h, field).connection == h.connection
  {
  }

  /** The persistence decision of section 9.3 of RFC 9112. */
  ghost predicate Persists(http11: bool, values: seq<string>) {
    !HasOption(values, "close") && (http11 || HasOption(values, "keep-alive"))
  }

  /** An accepted request is answered with a close exactly when its version and the
      union of its connection options say the connection does not persist. */
  lemma CloseIsPersistence(raw: string)
    requires Parse(raw).error == 0
    ensures EndsWithTerminator(raw)
    ensures Parse(raw).close <==>
              !Persists(IsVersion11(SplitStart(FirstLine(raw))), ConnectionValues(FieldLines(raw)))
  {
    hide AddLines, FieldLines, Names, IsTokenName, GoodTarget, AllPlain, SplitStart, ConnectionValues, HasOption;
    var lines := FieldLines(raw);
    AcceptedLines(raw);
    ConnectionCollects(NoHeaders, lines, "close");
    ConnectionCollects(NoHeaders, lines, "keep-alive");
    EmptyNamesNothing("close");
    EmptyNamesNothing("keep-alive");
  }

  lemma AcceptedLines(raw: string)
    requires Parse(raw).error == 0
    ensures EndsWithTerminator(raw) && AddLines(NoHeaders, FieldLines(raw)).error == 0
    ensures !AddLines(NoHeaders, FieldLines(raw)).body
  {
    hide AddLines, FieldLines, Names, IsTokenName, GoodTarget, AllPlain, SplitStart;
  }

  /** No line announces a body: none is a Transfer-Encoding field, and each
      Content-Length field says zero. */
  predicate Bodyless(line: string) {
    var field := ReadLine(line);
    field.Field? && field.name != "transfer-encoding" &&
    (field.name == "content-length" ==> IsLength(field.value) && Number(field.value) == 0)
  }

  lemma {:induction false} LinesBodyless(h: Headers, lines: seq<string>)
    requires h.error == 0 && AddLines(h, lines).error == 0 && !AddLines(h, lines).body
    ensures forall i :: 0 <= i < |lines| ==> Bodyless(lines[i])
    ensures !h.body
    decreases |lines|
  {
    hide ReadLine, IsLength;
    if lines != [] {
      LinesBodyless(AddField(h, ReadLine(lines[0])), lines[1..]);
      assert forall i :: 1 <= i < |lines| ==> lines[i] == lines[1..][i - 1];
    }
  }

  /** An accepted request has no body, so the next one starts right behind it. */
  lemma AcceptedHasNoBody(raw: string)
    requires Parse(raw).error == 0
    ensures EndsWithTerminator(raw)
    ensures forall i :: 0 <= i < |FieldLines(raw)| ==> Bodyless(FieldLines(raw)[i])
  {
    hide AddLines, FieldLines, Parse, Bodyless;
    AcceptedLines(raw);
    LinesBodyless(NoHeaders, FieldLines(raw));
  }
}
