/** The parser as the server runs it: cursors over the raw text, one pass. */
module HttpParser {
  import opened HttpText
  import opened Decimal
  import opened HttpParse

  method PlainText(raw: string) returns (ok: bool)
    ensures ok == AllPlain(raw)
  {
    for i := 0 to |raw|
      invariant forall k :: 0 <= k < i ==> IsPlain(raw[k])
    {
      if !IsPlain(raw[i]) {
        return false;
      }
    }
    return true;
  }

  /** from_chars over a whole field value. */
  method ParseLength(value: string) returns (ok: bool, length: nat)
    ensures ok == IsLength(value)
    ensures ok ==> length == Number(value)
  {
    length := 0;
    if value == "" {
      return false, 0;
    }
    for i := 0 to |value|
      invariant AllDigits(value[..i]) && length == Number(value[..i])
    {
      if !IsDigit(value[i]) {
        return false, 0;
      }
      assert value[..i + 1][..i] == value[..i];
      length := 10 * length + Value(value[i]);
    }
    assert value[..|value|] == value;
    ok := length < UINT64_LIMIT;
  }

  method ParseLine(line: string) returns (field: Field)
    ensures field == ReadLine(line)
  {
    hide Trim, Lower, IsTokenName;
    var colon := Find(line, ":", 0);
    if colon == |line| {
      return NoField;
    }
    var named := TokenName(line[..colon]);
    if !named {
      return NoField;
    }
    var name := LowerCopy(line[..colon]);
    var value := TrimView(line[colon + 1..]);
    for i := 0 to |value|
      invariant forall k :: 0 <= k < i ==> !IsControl(value[k])
    {
      if IsControl(value[i]) {
        return NoField;
      }
    }
    return Field(name, value);
  }

  /** One header field; the running counts are updated and an error code is set. */
  method TakeField(h: Headers, field: Field) returns (h': Headers)
    requires h.error == 0
    ensures h' == AddField(h, field)
  {
    hide IsLength;
    h' := h;
    if field.NoField? {
      h' := h'.(error := 400);
    } else if field.name == "host" {
      h' := h'.(hosts := h'.hosts + 1);
      if h'.hosts != 1 || field.value == "" {
        h' := h'.(error := 400);
      }
    } else if field.name == "content-length" {
      h' := h'.(lengths := h'.lengths + 1);
      var ok, length := ParseLength(field.value);
      if h'.lengths != 1 || !ok {
        h' := h'.(error := 400);
      } else if length != 0 {
        h' := h'.(body := true);
      }
    } else if field.name == "transfer-encoding" {
      h' := h'.(error := 501);
    } else if field.name == "connection" {
      h' := h'.(connection := if h'.connection != "" then h'.connection + "," + field.value else field.value);
    }
  }

  method ParseFields(raw: string) returns (h: Headers)
    requires EndsWithTerminator(raw)
    ensures h == AddLines(NoHeaders, FieldLines(raw))
  {
    hide ReadLine, AddField, Find;
    h := NoHeaders;
    assert raw[|raw| - 2..] == CRLF;
    LineEndExists(raw, 0);
    var at := Find(raw, CRLF, 0) + 2;
    var endHeaders := |raw| - 2;
    while at < endHeaders
      invariant at <= |raw| && h.error == 0
      invariant AddLines(NoHeaders, FieldLines(raw)) == AddLines(h, HeaderLines(raw, at))
      decreases |raw| - at
    {
      LineEndExists(raw, at);
      var end := Find(raw, CRLF, at);
      var line := raw[at..end];
      ghost var lines := HeaderLines(raw, at);
      at := end + 2;
      if line == "" {
        break;
      }
      assert lines[1..] == HeaderLines(raw, at);
      var field := ParseLine(line);
      h := TakeField(h, field);
      if h.error != 0 {
        break;
      }
    }
  }

  method ParseRequest(raw: string) returns (p: Request)
    ensures p == Parse(raw)
  {
    hide Names, AddLines, FieldLines, AllPlain, IsTokenName, GoodTarget, VersionError, SplitStart;
    if |raw| < 4 || raw[|raw| - 4..] != TERMINATOR {
      return Rejected(400);
    }
    var plain := PlainText(raw);
    if !plain {
      return Rejected(400);
    }
    var start := SplitStart(FirstLine(raw));
    if start.NoStart? {
      return Rejected(400);
    }
    var token := TokenName(start.verb);
    if !token || !GoodTarget(start.target) {
      return Rejected(400);
    }
    if VersionError(start.version) != 0 {
      return Rejected(VersionError(start.version));
    }
    var http11 := start.version == "HTTP/1.1";
    p := Request(0, start.verb == "HEAD", !http11, !http11, start.target[..Find(start.target, "?", 0)]);
    var h := ParseFields(raw);
    if h.error != 0 {
      return p.(error := h.error);
    }
    if http11 && h.hosts != 1 {
      return p.(error := 400);
    }
    var closes := ContainsToken(h.connection, "close");
    if closes {
      p := p.(close := true);
    } else {
      var keeps := ContainsToken(h.connection, "keep-alive");
      if keeps {
        p := p.(close := false);
      }
    }
    if h.body {
      return p.(error := 413);
    }
    if start.verb != "GET" && start.verb != "HEAD" {
      p := p.(error := 405);
    }
  }
}
