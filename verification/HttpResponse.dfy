/** What the server answers, how an answer is written to the wire, and how a client
    that knows which requests were HEAD reads the stream back. */
module HttpResponse {
  import opened HttpText
  import opened Decimal
  import opened HttpParse
  import opened Wrappers

  datatype Response = Response(
    status: nat, mime: string, body: string, head: bool, close: bool, allow: bool, http10: bool)

  const PLAIN: string := "text/plain; charset=utf-8"
  const HTML: string := "text/html; charset=utf-8"
  const INDEX: string := "<html><body><h1>libAeon HTTP example</h1></body></html>\n"

  function Reason(status: nat): string {
    match status
    case 200 => "OK"
    case 400 => "Bad Request"
    case 404 => "Not Found"
    case 405 => "Method Not Allowed"
    case 408 => "Request Timeout"
    case 413 => "Content Too Large"
    case 431 => "Request Header Fields Too Large"
    case 501 => "Not Implemented"
    case 505 => "HTTP Version Not Supported"
    case _ => "Internal Server Error"
  }

  predicate IsIndex(path: string) {
    path == "/" || path == "/index.html"
  }

  function StatusOf(r: Request): nat {
    if r.error != 0 then r.error else if IsIndex(r.path) || r.path == "/health" then 200 else 404
  }

  function MimeOf(r: Request): string {
    if r.error == 0 && IsIndex(r.path) then HTML else PLAIN
  }

  function BodyOf(r: Request): string {
    if r.error != 0 then Reason(r.error) + "\n"
    else if IsIndex(r.path) then INDEX
    else if r.path == "/health" then "ok\n"
    else "Not Found\n"
  }

  /** handle_request: every rejected request is answered with a close. */
  function Answer(r: Request): Response {
    Response(StatusOf(r), MimeOf(r), BodyOf(r), r.error == 0 && r.head, r.error != 0 || r.close,
             r.error == 405, r.http10)
  }

  const TOO_LARGE := Response(431, PLAIN, "Request Header Fields Too Large\n", false, true, false, false)
  const TOO_MANY := Response(400, PLAIN, "Too many pipelined requests\n", false, true, false, false)

  // ----- the wire form -----------------------------------------------------

  const TYPE_NAME: string := "Content-Type: "
  const LENGTH_NAME: string := "Content-Length: "
  const CONNECTION_NAME: string := "Connection: "
  const ALLOW_NAME: string := "Allow: "
  const CLOSE_LINE: string := "Connection: close"
  const KEEP_LINE: string := "Connection: keep-alive"

  function StatusLine(r: Response): string {
    (if r.http10 then "HTTP/1.0 " else "HTTP/1.1 ") + (Digits(r.status) + (" " + Reason(r.status)))
  }

  function HeadLines(r: Response): seq<string> {
    [StatusLine(r), TYPE_NAME + r.mime, LENGTH_NAME + Digits(|r.body|), if r.close then CLOSE_LINE else KEEP_LINE] +
    (if r.allow then ["Allow: GET, HEAD"] else [])
  }

  function JoinLines(lines: seq<string>): string {
    if lines == [] then "" else lines[0] + CRLF + JoinLines(lines[1..])
  }

  function Render(r: Response): string {
    JoinLines(HeadLines(r)) + CRLF + (if r.head then "" else r.body)
  }

  function Stream(rs: seq<Response>): string {
    if rs == [] then "" else Render(rs[0]) + Stream(rs[1..])
  }

  lemma {:induction false} JoinSnoc(lines: seq<string>, line: string)
    ensures JoinLines(lines + [line]) == JoinLines(lines) + (line + CRLF)
  {
    if lines == [] {
      assert lines + [line] == [line];
      assert JoinLines([line]) == line + CRLF + JoinLines([]);
    } else {
      JoinSnoc(lines[1..], line);
      assert (lines + [line])[1..] == lines[1..] + [line];
    }
  }

  /** One more header line behind the ones already written. */
  method AppendLine(text: string, name: string, value: string, ghost lines: seq<string>) returns (t: string)
    requires text == JoinLines(lines)
    ensures t == JoinLines(lines + [name + value])
  {
    JoinSnoc(lines, name + value);
    t := text + name + value + "\r\n";
    assert t == text + ((name + value) + CRLF);
  }

  /** send_response writes the head line by line, a blank line and, except to HEAD,
      the body. */
  method BuildResponse(r: Response) returns (text: string)
    ensures text == Render(r)
  {
    hide JoinLines, Digits, Reason;
    EmptyJoin();
    assert "Connection: " + "close" == CLOSE_LINE && "Connection: " + "keep-alive" == KEEP_LINE;
    assert "Allow: " + "GET, HEAD" == "Allow: GET, HEAD";
    ghost var lines: seq<string> := [];
    text := AppendLine("", if r.http10 then "HTTP/1.0 " else "HTTP/1.1 ",
                       Digits(r.status) + (" " + Reason(r.status)), lines);
    lines := lines + [StatusLine(r)];
    text := AppendLine(text, TYPE_NAME, r.mime, lines);
    lines := lines + [TYPE_NAME + r.mime];
    text := AppendLine(text, LENGTH_NAME, Digits(|r.body|), lines);
    lines := lines + [LENGTH_NAME + Digits(|r.body|)];
    text := AppendLine(text, "Connection: ", if r.close then "close" else "keep-alive", lines);
    lines := lines + [if r.close then CLOSE_LINE else KEEP_LINE];
    if r.allow {
      text := AppendLine(text, "Allow: ", "GET, HEAD", lines);
      lines := lines + ["Allow: GET, HEAD"];
    }
    assert lines == HeadLines(r);
    text := text + "\r\n";
    if !r.head {
      text := text + r.body;
    }
  }

  lemma EmptyJoin()
    ensures JoinLines([]) == ""
  {
  }

  // ----- reading the stream back -------------------------------------------

  /** What a client learns from one response: length is the declared one. */
  datatype Message = Message(version: string, status: nat, reason: string, mime: Option<string>, length: nat,
                             connection: Option<string>, allow: Option<string>, body: string)

  function MessageOf(r: Response): Message {
    Message(if r.http10 then "HTTP/1.0" else "HTTP/1.1", r.status, Reason(r.status), Some(r.mime), |r.body|,
            Some(if r.close then "close" else "keep-alive"), if r.allow then Some("GET, HEAD") else None,
            if r.head then "" else r.body)
  }

  datatype Block = Incomplete | Block(lines: seq<string>, rest: string)

  /** The lines up to the first empty one, and what follows it. */
  function ReadBlock(s: string): Block
    decreases |s|
  {
    var end := Find(s, CRLF, 0);
    if end == |s| then Incomplete
    else if end == 0 then Block([], s[2..])
    else
      match ReadBlock(s[end + 2..])
      case Incomplete => Incomplete
      case Block(lines, rest) => Block([s[..end]] + lines, rest)
  }

  datatype Numeric = NotNumeric | Numeric(value: nat)

  function ReadNumber(s: string): Numeric {
    if s != "" && AllDigits(s) then Numeric(Number(s)) else NotNumeric
  }

  datatype Status = NoStatus | Status(version: string, code: nat, reason: string)

  /** The words of a status line; the last may hold spaces. */
  function ReadStatus(line: string): Status {
    var sp1 := Find(line, " ", 0);
    if sp1 == |line| then NoStatus
    else
      var sp2 := Find(line, " ", sp1 + 1);
      var code := ReadNumber(line[sp1 + 1..sp2]);
      if sp2 == |line| || code.NotNumeric? then NoStatus else Status(line[..sp1], code.value, line[sp2 + 1..])
  }

  /** The value of the first line with this name. */
  function ReadNamed(lines: seq<string>, name: string): Option<string> {
    if lines == [] then None
    else if name <= lines[0] then Some(lines[0][|name|..])
    else ReadNamed(lines[1..], name)
  }

  function ReadLength(lines: seq<string>): Numeric {
    match ReadNamed(lines, LENGTH_NAME)
    case None => NotNumeric
    case Some(value) => ReadNumber(value)
  }

  datatype Decoded = Bad | Decoded(messages: seq<Message>)

  function ReadMessage(status: Status, length: nat, lines: seq<string>, body: string): Message
    requires status.Status?
  {
    Message(status.version, status.code, status.reason, ReadNamed(lines, TYPE_NAME), length,
            ReadNamed(lines, CONNECTION_NAME), ReadNamed(lines, ALLOW_NAME), body)
  }

  /** A client reading a whole stream; heads says which requests were HEAD. */
  function Decode(s: string, heads: seq<bool>): Decoded
    decreases |heads|
  {
    if heads == [] then (if s == "" then Decoded([]) else Bad)
    else
      match ReadBlock(s)
      case Incomplete => Bad
      case Block(lines, rest) =>
        var status := if lines == [] then NoStatus else ReadStatus(lines[0]);
        var length := ReadLength(lines);
        if status.NoStatus? || length.NotNumeric? then Bad
        else
          var size := if heads[0] then 0 else length.value;
          if size > |rest| then Bad
          else
            match Decode(rest[size..], heads[1..])
            case Bad => Bad
            case Decoded(messages) =>
              Decoded([ReadMessage(status, length.value, lines, rest[..size])] + messages)
  }

  predicate PlainLine(line: string) {
    line != "" && '\r' !in line
  }

  lemma {:induction false} BlockRoundTrip(lines: seq<string>, t: string)
    requires forall i :: 0 <= i < |lines| ==> PlainLine(lines[i])
    ensures ReadBlock(JoinLines(lines) + CRLF + t) == Block(lines, t)
    decreases |lines|
  {
    hide Find;
    var s := JoinLines(lines) + CRLF + t;
    if lines == [] {
      assert s == "" + CRLF + t;
      LineEndsAtCrlf("", t);
      assert s[2..] == t;
    } else {
      var t' := JoinLines(lines[1..]) + CRLF + t;
      assert s == lines[0] + CRLF + t';
      LineEndsAtCrlf(lines[0], t');
      assert s[..|lines[0]|] == lines[0];
      assert s[|lines[0]| + 2..] == t';
      BlockRoundTrip(lines[1..], t);
      assert lines == [lines[0]] + lines[1..];
    }
  }

  // ----- one response ------------------------------------------------------

  lemma DigitsArePlain(n: nat)
    ensures Digits(n) != "" && AllDigits(Digits(n))
    ensures '\r' !in Digits(n) && ' ' !in Digits(n)
  {
    hide Number, Digits;
    DigitsRoundTrip(n);
  }

  lemma ReadNumberRoundTrip(n: nat)
    ensures ReadNumber(Digits(n)) == Numeric(n)
  {
    DigitsRoundTrip(n);
  }

  lemma StatusRoundTrip(r: Response)
    ensures ReadStatus(StatusLine(r)) == Status(MessageOf(r).version, r.status, Reason(r.status))
  {
    hide Digits, Reason, Find, ReadNumber;
    var version := if r.http10 then "HTTP/1.0" else "HTTP/1.1";
    var d := Digits(r.status);
    DigitsArePlain(r.status);
    ReadNumberRoundTrip(r.status);
    var line := StatusLine(r);
    assert line == version + " " + (d + (" " + Reason(r.status)));
    FindSpace(version, d + (" " + Reason(r.status)), 0);
    var upTo := version + " " + d;
    assert line == upTo + " " + Reason(r.status);
    FindSpace(upTo, Reason(r.status), |version| + 1);
    assert line[|version| + 1..|upTo|] == d;
    assert line[..|version|] == version;
    assert line[|upTo| + 1..] == Reason(r.status);
  }

  /** Two texts that differ at some place: neither starts with the other. */
  lemma Differ(name: string, line: string, i: nat)
    requires i < |name| && i < |line| && name[i] != line[i]
    ensures !(name <= line)
  {
  }

  /** The line of a name is found behind lines of other names. */
  lemma {:induction false} NamedAt(lines: seq<string>, name: string, k: nat)
    requires k < |lines| && name <= lines[k] && forall j :: 0 <= j < k ==> !(name <= lines[j])
    ensures ReadNamed(lines, name) == Some(lines[k][|name|..])
  {
    if k > 0 {
      NamedAt(lines[1..], name, k - 1);
    }
  }

  lemma {:induction false} NamedNowhere(lines: seq<string>, name: string)
    requires forall j :: 0 <= j < |lines| ==> !(name <= lines[j])
    ensures ReadNamed(lines, name) == None
  {
    if lines != [] {
      NamedNowhere(lines[1..], name);
    }
  }

  function ConnectionText(r: Response): string {
    if r.close then "close" else "keep-alive"
  }

  lemma ConnectionLine(r: Response)
    ensures (if r.close then CLOSE_LINE else KEEP_LINE) == CONNECTION_NAME + ConnectionText(r)
  {
    assert CONNECTION_NAME + "close" == CLOSE_LINE && CONNECTION_NAME + "keep-alive" == KEEP_LINE;
  }

  /** Where the lines of a head differ from the names of the others. */
  lemma LinesDiffer(r: Response)
    ensures var lines := HeadLines(r);
            && !(TYPE_NAME <= lines[0]) && !(LENGTH_NAME <= lines[0])
            && !(CONNECTION_NAME <= lines[0]) && !(ALLOW_NAME <= lines[0])
            && !(LENGTH_NAME <= lines[1]) && !(CONNECTION_NAME <= lines[1]) && !(ALLOW_NAME <= lines[1])
            && !(CONNECTION_NAME <= lines[2]) && !(ALLOW_NAME <= lines[2])
            && !(ALLOW_NAME <= lines[3])
  {
    hide Digits, Reason;
    var lines := HeadLines(r);
    ConnectionLine(r);
    assert lines[0][0] == 'H';
    assert lines[1] == TYPE_NAME + r.mime && lines[1][0] == 'C' && lines[1][3] == 't' && lines[1][8] == 'T';
    assert lines[2][0] == 'C' && lines[2][3] == 't';
    assert lines[3][0] == 'C';
    Differ(TYPE_NAME, lines[0], 0);
    Differ(LENGTH_NAME, lines[0], 0);
    Differ(CONNECTION_NAME, lines[0], 0);
    Differ(ALLOW_NAME, lines[0], 0);
    Differ(LENGTH_NAME, lines[1], 8);
    Differ(CONNECTION_NAME, lines[1], 3);
    Differ(ALLOW_NAME, lines[1], 0);
    Differ(CONNECTION_NAME, lines[2], 3);
    Differ(ALLOW_NAME, lines[2], 0);
    Differ(ALLOW_NAME, lines[3], 0);
  }

  /** Each header line is read back. */
  lemma NamedRoundTrip(r: Response)
    ensures ReadNamed(HeadLines(r), TYPE_NAME) == Some(r.mime)
    ensures ReadLength(HeadLines(r)) == Numeric(|r.body|)
    ensures ReadNamed(HeadLines(r), CONNECTION_NAME) == Some(ConnectionText(r))
    ensures ReadNamed(HeadLines(r), ALLOW_NAME) == if r.allow then Some("GET, HEAD") else None
  {
    hide HeadLines, ReadNumber, ReadNamed, ConnectionText;
    var lines := HeadLines(r);
    LinesDiffer(r);
    LinesAre(r);
    ReadNumberRoundTrip(|r.body|);
    NamedAt(lines, TYPE_NAME, 1);
    NamedAt(lines, LENGTH_NAME, 2);
    NamedAt(lines, CONNECTION_NAME, 3);
    if r.allow {
      NamedAt(lines, ALLOW_NAME, 4);
    } else {
      NamedNowhere(lines, ALLOW_NAME);
    }
  }

  lemma LinesAre(r: Response)
    ensures var lines := HeadLines(r);
            && |lines| == (if r.allow then 5 else 4)
            && TYPE_NAME <= lines[1] && lines[1][|TYPE_NAME|..] == r.mime
            && LENGTH_NAME <= lines[2] && lines[2][|LENGTH_NAME|..] == Digits(|r.body|)
            && CONNECTION_NAME <= lines[3] && lines[3][|CONNECTION_NAME|..] == ConnectionText(r)
            && (r.allow ==> ALLOW_NAME <= lines[4] && lines[4][|ALLOW_NAME|..] == "GET, HEAD")
  {
    hide Digits, StatusLine, ConnectionText;
    var lines := HeadLines(r);
    assert lines[1] == TYPE_NAME + r.mime && lines[2] == LENGTH_NAME + Digits(|r.body|);
    assert r.allow ==> lines[4] == "Allow: GET, HEAD";
    assert lines[3] == CONNECTION_NAME + ConnectionText(r) by { ConnectionLine(r); }
    hide HeadLines;
    Prefixed(TYPE_NAME, r.mime);
    Prefixed(LENGTH_NAME, Digits(|r.body|));
    Prefixed(CONNECTION_NAME, ConnectionText(r));
    Prefixed(ALLOW_NAME, "GET, HEAD");
    assert "Allow: GET, HEAD" == ALLOW_NAME + "GET, HEAD";
  }

  lemma Prefixed(name: string, value: string)
    ensures name <= name + value && (name + value)[|name|..] == value
  {
  }

  /** The media type is the only free text in the head. */
  predicate Writable(r: Response) {
    '\r' !in r.mime
  }

  lemma ReasonIsPlain(status: nat)
    ensures '\r' !in Reason(status)
  {
    match status
    case 200 => assert '\r' !in "OK";
    case 400 => assert '\r' !in "Bad Request";
    case 404 => assert '\r' !in "Not Found";
    case 405 => assert '\r' !in "Method Not Allowed";
    case 408 => assert '\r' !in "Request Timeout";
    case 413 => assert '\r' !in "Content Too Large";
    case 431 => assert '\r' !in "Request Header Fields Too Large";
    case 501 => assert '\r' !in "Not Implemented";
    case 505 => assert '\r' !in "HTTP Version Not Supported";
    case _ => assert '\r' !in "Internal Server Error";
  }

  lemma LinesArePlain(r: Response)
    requires Writable(r)
    ensures forall i :: 0 <= i < |HeadLines(r)| ==> PlainLine(HeadLines(r)[i])
  {
    hide Digits, Reason;
    DigitsArePlain(r.status);
    DigitsArePlain(|r.body|);
    ReasonIsPlain(r.status);
  }

  /** What follows the head of the first response of a stream. */
  function AfterHead(r: Response, rs: seq<Response>): string {
    (if r.head then "" else r.body) + Stream(rs)
  }

  lemma HeadRoundTrip(r: Response, rs: seq<Response>)
    requires Writable(r)
    ensures ReadBlock(Stream([r] + rs)) == Block(HeadLines(r), AfterHead(r, rs))
  {
    hide HeadLines, JoinLines, ReadBlock;
    assert ([r] + rs)[1..] == rs;
    assert Stream([r] + rs) == JoinLines(HeadLines(r)) + CRLF + AfterHead(r, rs);
    LinesArePlain(r);
    BlockRoundTrip(HeadLines(r), AfterHead(r, rs));
  }

  lemma DecodeStep(r: Response, rs: seq<Response>)
    requires Writable(r) && Decode(Stream(rs), Heads(rs)) == Decoded(Messages(rs))
    ensures Decode(Stream([r] + rs), Heads([r] + rs)) == Decoded(Messages([r] + rs))
  {
    hide ReadBlock, ReadStatus, ReadLength, HeadLines, Stream, Decode, Heads, Messages, Writable;
    HeadRoundTrip(r, rs);
    FirstLineIsStatus(r);
    StatusRoundTrip(r);
    NamedRoundTrip(r);
    ListsStep(r, rs);
    var text := if r.head then "" else r.body;
    var t := AfterHead(r, rs);
    assert t[..|text|] == text && t[|text|..] == Stream(rs);
    DecodeFirst(Stream([r] + rs), Heads([r] + rs), HeadLines(r), t, ReadStatus(StatusLine(r)), |r.body|, Messages(rs));
  }

  lemma ListsStep(r: Response, rs: seq<Response>)
    ensures Heads([r] + rs) != [] && Heads([r] + rs)[0] == r.head && Heads([r] + rs)[1..] == Heads(rs)
    ensures Messages([r] + rs) == [MessageOf(r)] + Messages(rs)
  {
    hide MessageOf;
  }

  /** Reading the first response, once its head is read, and then the others. */
  lemma DecodeFirst(s: string, heads: seq<bool>, lines: seq<string>, rest: string, status: Status, length: nat,
                    others: seq<Message>)
    requires heads != [] && ReadBlock(s) == Block(lines, rest) && lines != []
    requires ReadStatus(lines[0]) == status && status.Status? && ReadLength(lines) == Numeric(length)
    requires var size := if heads[0] then 0 else length;
             size <= |rest| && Decode(rest[size..], heads[1..]) == Decoded(others)
    ensures var size := if heads[0] then 0 else length;
            Decode(s, heads) == Decoded([ReadMessage(status, length, lines, rest[..size])] + others)
  {
    hide ReadBlock, ReadStatus, ReadLength;
  }

  /** Content-Length always delimits the body, given whether the request was HEAD:
      the stream reads back as the list of what was answered, in order. */
  lemma {:induction false} StreamRoundTrip(rs: seq<Response>)
    requires forall i :: 0 <= i < |rs| ==> Writable(rs[i])
    ensures Decode(Stream(rs), Heads(rs)) == Decoded(Messages(rs))
    decreases |rs|
  {
    if rs != [] {
      StreamRoundTrip(rs[1..]);
      DecodeStep(rs[0], rs[1..]);
      assert rs == [rs[0]] + rs[1..];
    }
  }

  lemma FirstLineIsStatus(r: Response)
    ensures HeadLines(r) != [] && HeadLines(r)[0] == StatusLine(r)
  {
  }

  function Heads(rs: seq<Response>): seq<bool> {
    seq(|rs|, i requires 0 <= i < |rs| => rs[i].head)
  }

  function Messages(rs: seq<Response>): seq<Message> {
    seq(|rs|, i requires 0 <= i < |rs| => MessageOf(rs[i]))
  }

  /** Two lists of answers to the same kinds of request that look alike on the wire
      say the same. */
  lemma StreamIsUnambiguous(a: seq<Response>, b: seq<Response>)
    requires forall i :: 0 <= i < |a| ==> Writable(a[i])
    requires forall i :: 0 <= i < |b| ==> Writable(b[i])
    requires Heads(a) == Heads(b) && Stream(a) == Stream(b)
    ensures Messages(a) == Messages(b)
  {
    hide Stream, Decode, Messages, Heads;
    StreamRoundTrip(a);
    StreamRoundTrip(b);
  }

  lemma MimesArePlain(r: Request)
    ensures '\r' !in MimeOf(r) && '\r' !in PLAIN
  {
    assert '\r' !in PLAIN && '\r' !in HTML;
  }

  lemma AnswersAreWritable(r: Request)
    ensures Writable(Answer(r)) && Writable(TOO_LARGE) && Writable(TOO_MANY)
    ensures r.error != 0 ==> Answer(r).close
    ensures r.error == 0 ==> Answer(r).close == r.close
  {
    hide MimeOf, BodyOf, StatusOf;
    MimesArePlain(r);
  }
}
