/** What a request text means, read off the text itself: its words, its field lines, the
    first defect that has it refused, and otherwise what is asked for. */
module HttpMeaning {
  import opened HttpText
  import opened HttpParse
  import opened HttpResponse
  import opened HttpStream
  import opened Decimal
  import opened Wrappers

  // ----- characters and words ----------------------------------------------

  /** The token characters of section 5.6.2 of RFC 9110: visible ASCII without the
      delimiters. */
  lemma TokenCharacters(c: char)
    ensures IsTokenChar(c) <==> '!' <= c <= '~' && c !in "\"(),/:;<=>?@[\\]{}"
  {
  }

  const CAPITALS: string := "ABCDEFGHIJKLMNOPQRSTUVWXYZ"
  const SMALL: string := "abcdefghijklmnopqrstuvwxyz"

  /** Lower-casing maps each capital letter to its small one and nothing else. */
  lemma LowerLetters(c: char)
    ensures 'A' <= c <= 'Z' ==>
              (c - 'A') as int < 26 && CAPITALS[(c - 'A') as int] == c && LowerChar(c) == SMALL[(c - 'A') as int]
    ensures c !in CAPITALS ==> LowerChar(c) == c
  {
    if 'A' <= c <= 'Z' {
      CapitalIsListed(c);
      SmallIsListed(c);
    }
  }

  lemma SmallIsListed(c: char)
    requires 'A' <= c <= 'Z'
    ensures SMALL[(c - 'A') as int] == c - 'A' + 'a'
  {
  }

  lemma CapitalIsListed(c: char)
    requires 'A' <= c <= 'Z'
    ensures CAPITALS[(c - 'A') as int] == c && c in CAPITALS
  {
  }

  /** Nothing but blanks is trimmed, and all of them at both ends. */
  ghost predicate IsTrimmed(s: string, core: string) {
    && (core != "" ==> !IsBlank(core[0]) && !IsBlank(core[|core| - 1]))
    && exists left, right :: Padded(s, left, core, right)
  }

  ghost predicate Padded(s: string, left: string, core: string, right: string) {
    && s == left + core + right
    && (forall i :: 0 <= i < |left| ==> IsBlank(left[i]))
    && (forall i :: 0 <= i < |right| ==> IsBlank(right[i]))
  }

  lemma {:induction false} FrontPadding(s: string) returns (left: string)
    ensures s == left + TrimFront(s) && forall i :: 0 <= i < |left| ==> IsBlank(left[i])
    ensures TrimFront(s) != "" ==> !IsBlank(TrimFront(s)[0])
  {
    if s != "" && IsBlank(s[0]) {
      var rest := FrontPadding(s[1..]);
      assert TrimFront(s) == TrimFront(s[1..]);
      hide TrimFront, IsBlank;
      left := [s[0]] + rest;
      FirstJoins(s, rest, TrimFront(s));
      assert forall i :: 0 <= i < |left| ==> left[i] == if i == 0 then s[0] else rest[i - 1];
    } else {
      left := "";
    }
  }

  lemma FirstJoins(s: string, rest: string, tail: string)
    requires s != "" && s[1..] == rest + tail
    ensures s == [s[0]] + rest + tail
  {
    assert s == [s[0]] + s[1..];
  }

  lemma {:induction false} BackPadding(s: string) returns (right: string)
    ensures s == TrimBack(s) + right && forall i :: 0 <= i < |right| ==> IsBlank(right[i])
    ensures TrimBack(s) != "" ==> !IsBlank(TrimBack(s)[|TrimBack(s)| - 1]) && TrimBack(s)[0] == s[0]
  {
    if s != "" && IsBlank(s[|s| - 1]) {
      var rest := BackPadding(s[..|s| - 1]);
      assert TrimBack(s) == TrimBack(s[..|s| - 1]);
      hide TrimBack, IsBlank;
      right := rest + [s[|s| - 1]];
      assert s == s[..|s| - 1] + [s[|s| - 1]];
      assert TrimBack(s) + right == TrimBack(s) + rest + [s[|s| - 1]];
      assert forall i :: 0 <= i < |right| ==> right[i] == if i < |rest| then rest[i] else s[|s| - 1];
    } else {
      right := "";
    }
  }

  lemma TrimTrims(s: string)
    ensures IsTrimmed(s, Trim(s))
  {
    hide TrimFront, TrimBack, IsBlank;
    var left := FrontPadding(s);
    var right := BackPadding(TrimFront(s));
    assert s == left + (Trim(s) + right);
    assert Padded(s, left, Trim(s), right);
  }

  /** Three words with one space between them. */
  ghost predicate ThreeWords(s: string, verb: string, target: string, version: string) {
    && s == verb + " " + target + " " + version
    && verb != "" && target != "" && version != ""
    && ' ' !in verb && ' ' !in target && ' ' !in version
  }

  lemma NoSpaceFound(s: string, from: nat, to: nat)
    requires from <= to <= |s| && forall j :: from <= j < to ==> !MatchesAt(s, " ", j)
    ensures ' ' !in s[from..to]
  {
    forall i | from <= i < to
      ensures s[i] != ' '
    {
      assert !MatchesAt(s, " ", i);
      assert s[i..i + 1] == [s[i]];
    }
  }

  lemma SpaceFound(s: string, i: nat)
    requires i < |s| && MatchesAt(s, " ", i)
    ensures s[i] == ' '
  {
    assert s[i..i + 1] == [s[i]];
  }

  /** The start line is split exactly into its three words. */
  lemma SplitIsThreeWords(s: string, start: StartLine)
    ensures start.StartLine? ==>
              (SplitStart(s) == start <==> ThreeWords(s, start.verb, start.target, start.version))
  {
    hide Find, MatchesAt, SplitStart;
    if start.StartLine? && ThreeWords(s, start.verb, start.target, start.version) {
      StartLineSplits(start.verb, start.target, start.version);
    }
    if start.StartLine? && SplitStart(s) == start {
      SplitWords(s);
    }
  }

  lemma SplitWords(s: string)
    requires SplitStart(s).StartLine?
    ensures var w := SplitStart(s); ThreeWords(s, w.verb, w.target, w.version)
  {
    hide Find, MatchesAt;
    var sp1 := Find(s, " ", 0);
    var sp2 := Find(s, " ", sp1 + 1);
    SpaceFound(s, sp1);
    SpaceFound(s, sp2);
    NoSpaceFound(s, 0, sp1);
    NoSpaceFound(s, sp1 + 1, sp2);
    NoSpaceFound(s[sp2 + 1..], 0, |s| - sp2 - 1);
    assert s[..sp1] == s[0..sp1];
    assert s[sp2 + 1..][0..|s| - sp2 - 1] == s[sp2 + 1..];
    CutTwice(s, sp1, sp2);
  }

  lemma CutTwice(s: string, i: nat, j: nat)
    requires i < j < |s| && s[i] == ' ' && s[j] == ' '
    ensures s == s[..i] + " " + s[i + 1..j] + " " + s[j + 1..]
  {
    assert s == s[..i] + [s[i]] + s[i + 1..j] + [s[j]] + s[j + 1..];
  }

  // ----- field lines -------------------------------------------------------

  /** A token, a colon and a value between blanks and without controls. */
  ghost predicate IsField(line: string, name: string, value: string) {
    exists word, rest ::
      && line == word + ":" + rest && IsTokenName(word) && name == Lower(word) && value == Trim(rest)
      && forall i :: 0 <= i < |value| ==> !IsControl(value[i])
  }

  lemma ColonAt(word: string, rest: string)
    requires IsTokenName(word)
    ensures Find(word + ":" + rest, ":", 0) == |word|
  {
    var s := word + ":" + rest;
    assert s[|word|..|word| + 1] == ":";
    assert MatchesAt(s, ":", |word|);
    forall j | 0 <= j < |word|
      ensures !MatchesAt(s, ":", j)
    {
      assert s[j..j + 1] == [word[j]];
    }
  }

  /** A line is read as the field it is, and as none exactly if it is none. */
  lemma ReadLineIsField(line: string)
    ensures forall name, value :: ReadLine(line) == Field(name, value) <==> IsField(line, name, value)
  {
    hide Find, MatchesAt, IsTokenName, Lower, Trim;
    var colon := Find(line, ":", 0);
    if colon < |line| {
      assert line[colon..colon + 1] == ":" by { ColonFound(line, colon); }
      assert line == line[..colon] + ":" + line[colon + 1..];
    }
    forall name, value | IsField(line, name, value)
      ensures ReadLine(line) == Field(name, value)
    {
      var word, rest :| && line == word + ":" + rest && IsTokenName(word) && name == Lower(word)
                        && value == Trim(rest) && forall i :: 0 <= i < |value| ==> !IsControl(value[i]);
      ColonAt(word, rest);
      assert line[..|word|] == word && line[|word| + 1..] == rest;
    }
  }

  lemma ColonFound(line: string, i: nat)
    requires i < |line| && MatchesAt(line, ":", i)
    ensures line[i..i + 1] == ":"
  {
  }

  // ----- the lines of a request --------------------------------------------

  /** raw is one request: it ends at its first empty line. */
  predicate IsWhole(raw: string) {
    EndsWithTerminator(raw) && Find(raw, TERMINATOR, 0) == |raw| - 4
  }

  predicate OneLine(line: string) {
    line != "" && Find(line, CRLF, 0) == |line|
  }

  lemma CrlfInside(raw: string, at: nat, end: nat)
    requires at <= end <= |raw| && forall j :: at <= j < end ==> !MatchesAt(raw, CRLF, j)
    ensures end < |raw| ==> Find(raw[at..end], CRLF, 0) == |raw[at..end]|
  {
    hide MatchesAt;
    forall j | 0 <= j < end - at
      ensures !MatchesAt(raw[at..end], CRLF, j)
    {
      MatchInSlice(raw, at, end, CRLF, j);
      assert !MatchesAt(raw, CRLF, at + j);
    }
  }

  lemma MatchInSlice(raw: string, at: nat, end: nat, what: string, j: nat)
    requires at <= end <= |raw|
    ensures MatchesAt(raw[at..end], what, j) ==> MatchesAt(raw, what, at + j)
  {
    if MatchesAt(raw[at..end], what, j) {
      SliceOfSlice(raw, at, end, j, j + |what|);
    }
  }

  lemma SliceOfSlice(s: string, at: nat, end: nat, i: nat, j: nat)
    requires at <= end <= |s| && i <= j <= end - at
    ensures s[at..end][i..j] == s[at + i..at + j]
  {
    var a, b := s[at..end][i..j], s[at + i..at + j];
    assert |a| == |b|;
    forall k | 0 <= k < |a|
      ensures a[k] == b[k]
    {
      assert a[k] == s[at..end][i + k] == s[at + i + k];
    }
  }

  /** Reading on from the start of a line before the last one. */
  lemma {:induction false} LinesFrom(raw: string, at: nat)
    requires IsWhole(raw) && 2 <= at <= |raw| - 2 && raw[at - 2..at] == CRLF
    ensures |raw| >= 2 && raw[|raw| - 2..] == CRLF
    ensures raw[at..] == JoinLines(HeaderLines(raw, at)) + CRLF
    ensures forall i :: 0 <= i < |HeaderLines(raw, at)| ==> OneLine(HeaderLines(raw, at)[i])
    decreases |raw| - at
  {
    hide Find, MatchesAt, OneLine, JoinLines;
    assert raw[|raw| - 2..] == raw[|raw| - 4..][2..];
    EmptyJoin();
    if at < |raw| - 2 {
      LineEndExists(raw, at);
      var end := Find(raw, CRLF, at);
      LineBeforeLast(raw, at, end);
      CrlfInside(raw, at, end);
      IsOneLine(raw[at..end]);
      LinesFrom(raw, end + 2);
      LineJoins(raw, at, end);
    }
  }

  lemma IsOneLine(line: string)
    requires line != "" && Find(line, CRLF, 0) == |line|
    ensures OneLine(line)
  {
  }

  /** The line found ends before the last empty line and is not empty. */
  lemma LineBeforeLast(raw: string, at: nat, end: nat)
    requires IsWhole(raw) && 2 <= at < |raw| - 2 && raw[at - 2..at] == CRLF
    requires at <= end <= |raw| - 2 && MatchesAt(raw, CRLF, end)
    requires forall j :: at <= j < end ==> !MatchesAt(raw, CRLF, j)
    ensures at < end <= |raw| - 4 && raw[end..end + 2] == CRLF
  {
    assert raw[|raw| - 4..] == TERMINATOR;
    assert raw[|raw| - 4] == '\r' && raw[|raw| - 3] == '\n' && raw[|raw| - 2] == '\r' && raw[|raw| - 1] == '\n';
    assert raw[at - 2] == '\r' && raw[at - 1] == '\n';
    assert at <= |raw| - 4;
    assert raw[|raw| - 4..|raw| - 2] == CRLF;
    assert MatchesAt(raw, CRLF, |raw| - 4);
    if end == at {
      EmptyLineEnds(raw, at - 2);
    }
  }

  lemma EmptyLineEnds(raw: string, i: nat)
    requires IsWhole(raw) && i + 4 <= |raw| && raw[i..i + 2] == CRLF && raw[i + 2..i + 4] == CRLF
    ensures i == |raw| - 4
  {
    assert raw[i..i + 4] == raw[i..i + 2] + raw[i + 2..i + 4];
    assert MatchesAt(raw, TERMINATOR, i);
  }

  lemma LineJoins(raw: string, at: nat, end: nat)
    requires |raw| >= 2 && raw[|raw| - 2..] == CRLF && at < end && end + 2 <= |raw| && raw[end..end + 2] == CRLF
    requires at < |raw| - 2 && end == Find(raw, CRLF, at)
    requires raw[end + 2..] == JoinLines(HeaderLines(raw, end + 2)) + CRLF
    ensures raw[at..] == JoinLines(HeaderLines(raw, at)) + CRLF
    ensures HeaderLines(raw, at) == [raw[at..end]] + HeaderLines(raw, end + 2)
  {
    hide Find, JoinLines;
    var line := raw[at..end];
    var more := HeaderLines(raw, end + 2);
    assert HeaderLines(raw, at) == [line] + more;
    hide HeaderLines;
    CutTwo(raw, at, end);
    JoinFirst(line, more);
    EmptyLast(line + CRLF, JoinLines(more), CRLF);
  }

  lemma CutTwo(s: string, at: nat, end: nat)
    requires at <= end <= |s| - 2
    ensures s[at..] == s[at..end] + s[end..end + 2] + s[end + 2..]
  {
    assert s[at..] == s[at..end] + s[end..];
    assert s[end..] == s[end..end + 2] + s[end + 2..];
  }

  lemma JoinFirst(line: string, more: seq<string>)
    ensures JoinLines([line] + more) == line + CRLF + JoinLines(more)
  {
    assert ([line] + more)[1..] == more;
  }

  lemma EmptyLast(a: string, b: string, c: string)
    ensures a + (b + c) == a + b + c
  {
  }

  /** A whole request is its first line and its field lines, each ended by CRLF, and an
      empty line. */
  lemma LinesAreTheText(raw: string)
    requires IsWhole(raw)
    ensures raw == FirstLine(raw) + CRLF + JoinLines(FieldLines(raw)) + CRLF
    ensures Find(FirstLine(raw), CRLF, 0) == |FirstLine(raw)|
    ensures forall i :: 0 <= i < |FieldLines(raw)| ==> OneLine(FieldLines(raw)[i])
  {
    hide Find, MatchesAt, OneLine, JoinLines, HeaderLines;
    assert raw[|raw| - 2..] == raw[|raw| - 4..][2..];
    LineEndExists(raw, 0);
    FirstLineEnds(raw);
    var first := Find(raw, CRLF, 0);
    assert raw[first..first + 2] == CRLF by { CrlfFound(raw, first); }
    CrlfInside(raw, 0, first);
    assert raw[0..first] == raw[..first];
    LinesFrom(raw, first + 2);
    assert raw == raw[..first] + raw[first..first + 2] + raw[first + 2..];
  }

  lemma CrlfFound(raw: string, i: nat)
    requires i < |raw| && MatchesAt(raw, CRLF, i)
    ensures i + 2 <= |raw| && raw[i..i + 2] == CRLF
  {
  }

  // ----- defects -----------------------------------------------------------

  predicate IsNamed(line: string, name: string) {
    var field := ReadLine(line);
    field.Field? && field.name == name
  }

  ghost predicate NamedBefore(lines: seq<string>, n: nat, name: string) {
    exists j :: 0 <= j < n && j < |lines| && IsNamed(lines[j], name)
  }

  /** What is wrong with field line i, after the lines before it: it is no field, it comes
      again where it may not, its value is bad, or it announces a transfer coding. */
  ghost function Defect(lines: seq<string>, i: nat): nat
    requires i < |lines|
  {
    var field := ReadLine(lines[i]);
    if field.NoField? then 400
    else if field.name == "transfer-encoding" then 501
    else if field.name == "host" && (NamedBefore(lines, i, "host") || field.value == "") then 400
    else if field.name == "content-length" && (NamedBefore(lines, i, "content-length") || !IsLength(field.value))
    then 400
    else 0
  }

  ghost predicate FirstDefect(lines: seq<string>, i: nat) {
    i < |lines| && Defect(lines, i) != 0 && forall j :: 0 <= j < i ==> Defect(lines, j) == 0
  }

  ghost predicate AnnouncesBody(line: string) {
    var field := ReadLine(line);
    field.Field? && field.name == "content-length" && IsLength(field.value) && Number(field.value) != 0
  }

  ghost predicate BodyBefore(lines: seq<string>, n: nat) {
    exists j :: 0 <= j < n && j < |lines| && AnnouncesBody(lines[j])
  }

  /** h has counted the first n lines. */
  ghost predicate Counts(h: Headers, lines: seq<string>, n: nat) {
    && h.error == 0
    && h.hosts == (if NamedBefore(lines, n, "host") then 1 else 0)
    && h.lengths == (if NamedBefore(lines, n, "content-length") then 1 else 0)
    && (h.body <==> BodyBefore(lines, n))
  }

  lemma NamedStep(lines: seq<string>, n: nat, name: string)
    requires n < |lines|
    ensures NamedBefore(lines, n + 1, name) <==> NamedBefore(lines, n, name) || IsNamed(lines[n], name)
  {
    hide IsNamed;
  }

  lemma BodyStep(lines: seq<string>, n: nat)
    requires n < |lines|
    ensures BodyBefore(lines, n + 1) <==> BodyBefore(lines, n) || AnnouncesBody(lines[n])
  {
    hide AnnouncesBody;
  }

  /** One more line is counted, or its defect reported. */
  lemma LineCounts(h: Headers, lines: seq<string>, n: nat)
    requires n < |lines| && Counts(h, lines, n)
    ensures AddField(h, ReadLine(lines[n])).error == Defect(lines, n)
    ensures Defect(lines, n) == 0 ==> Counts(AddField(h, ReadLine(lines[n])), lines, n + 1)
  {
    hide ReadLine, IsLength, Number, NamedBefore, BodyBefore, AddConnection;
    NamedStep(lines, n, "host");
    NamedStep(lines, n, "content-length");
    BodyStep(lines, n);
  }

  lemma {:induction false} LinesCount(h: Headers, lines: seq<string>, n: nat)
    requires n <= |lines| && Counts(h, lines, n) && forall j :: 0 <= j < n ==> Defect(lines, j) == 0
    ensures var r := AddLines(h, lines[n..]);
            && (forall i: nat :: FirstDefect(lines, i) ==> r.error == Defect(lines, i))
            && ((forall i :: 0 <= i < |lines| ==> Defect(lines, i) == 0) ==> Counts(r, lines, |lines|))
            && (r.error == 0 <==> forall i :: 0 <= i < |lines| ==> Defect(lines, i) == 0)
    decreases |lines| - n
  {
    hide ReadLine, AddField, Counts, Defect;
    assert Counts(h, lines, n) ==> h.error == 0 by { CountsHasNoError(h, lines, n); }
    if n < |lines| {
      var h1 := AddField(h, ReadLine(lines[n]));
      LineCounts(h, lines, n);
      assert lines[n..][0] == lines[n] && lines[n..][1..] == lines[n + 1..];
      if Defect(lines, n) == 0 {
        LinesCount(h1, lines, n + 1);
      } else {
        assert FirstDefect(lines, n);
        assert AddLines(h1, lines[n + 1..]) == h1;
      }
    }
  }

  lemma CountsHasNoError(h: Headers, lines: seq<string>, n: nat)
    ensures Counts(h, lines, n) ==> h.error == 0
  {
  }

  lemma NothingCounted(lines: seq<string>)
    ensures Counts(NoHeaders, lines, 0)
  {
  }

  /** The start line is good: three words, a token, and a target that starts with a slash
      and has no fragment. */
  predicate GoodStart(start: StartLine) {
    start.StartLine? && IsTokenName(start.verb) && start.target != "" && start.target[0] == '/' && '#' !in start.target
  }

  /** The version is refused; one of another HTTP in its own way. */
  predicate KnownVersion(version: string) {
    version == "HTTP/1.1" || version == "HTTP/1.0"
  }

  /** The code a request text is refused with, by its first defect in the order text, start
      line, version, field lines, missing Host, announced body and method; 0 for none. */
  ghost function ErrorOf(raw: string): nat {
    if !EndsWithTerminator(raw) || exists i :: 0 <= i < |raw| && !IsPlain(raw[i]) then 400
    else
      var start, lines := SplitStart(FirstLine(raw)), FieldLines(raw);
      if !GoodStart(start) then 400
      else if !KnownVersion(start.version) then (if "HTTP/" <= start.version then 505 else 400)
      else if exists i :: FirstDefect(lines, i) then
        var i :| FirstDefect(lines, i);
        Defect(lines, i)
      else if start.version == "HTTP/1.1" && !NamedBefore(lines, |lines|, "host") then 400
      else if BodyBefore(lines, |lines|) then 413
      else if start.verb != "GET" && start.verb != "HEAD" then 405
      else 0
  }

  lemma TargetIsGood(target: string)
    ensures GoodTarget(target) && ' ' !in target <==>
            target != "" && target[0] == '/' && '#' !in target && ' ' !in target
  {
    if target != "" && target[0] == '/' && ' ' !in target {
      FindAbsent(target, " ");
      if '#' !in target {
        FindAbsent(target, "#");
      } else {
        CharIsFound(target, "#");
      }
    }
  }

  lemma CharIsFound(s: string, what: string)
    requires |what| == 1 && what[0] in s
    ensures Find(s, what, 0) < |s|
  {
    var i :| 0 <= i < |s| && s[i] == what[0];
    assert s[i..i + 1] == what;
    assert MatchesAt(s, what, i);
  }

  lemma NoFirstDefect(lines: seq<string>)
    ensures (forall i :: 0 <= i < |lines| ==> Defect(lines, i) == 0) <==> !exists i :: FirstDefect(lines, i)
  {
    hide Defect;
    if i :| 0 <= i < |lines| && Defect(lines, i) != 0 {
      var first := LeastDefect(lines, i);
      assert FirstDefect(lines, first);
    }
  }

  lemma {:induction false} LeastDefect(lines: seq<string>, i: nat) returns (first: nat)
    requires i < |lines| && Defect(lines, i) != 0
    ensures FirstDefect(lines, first)
  {
    hide Defect;
    if j :| 0 <= j < i && Defect(lines, j) != 0 {
      first := LeastDefect(lines, j);
    } else {
      first := i;
    }
  }

  /** parse refuses exactly the texts that have a defect, each with the code of its first. */
  lemma ErrorIsFirstDefect(raw: string)
    ensures Parse(raw).error == ErrorOf(raw)
  {
    hide AddLines, FieldLines, Names, IsTokenName, GoodTarget, SplitStart, Defect, NamedBefore, BodyBefore,
         EndsWithTerminator, FirstLine, Find;
    if EndsWithTerminator(raw) && AllPlain(raw) {
      var start := SplitStart(FirstLine(raw));
      if start.StartLine? {
        SplitWords(FirstLine(raw));
        TargetIsGood(start.target);
        assert GoodStart(start) <==> IsTokenName(start.verb) && GoodTarget(start.target);
        assert (|start.version| >= 5 && start.version[..5] == "HTTP/") <==> "HTTP/" <= start.version;
        if GoodStart(start) && KnownVersion(start.version) {
          DecisionIsFirstDefect(raw, start);
        }
      }
    }
  }

  lemma DecisionIsFirstDefect(raw: string, start: StartLine)
    requires EndsWithTerminator(raw) && start.StartLine?
    ensures var lines := FieldLines(raw);
            Decide(start, AddLines(NoHeaders, lines)).error ==
              if exists i :: FirstDefect(lines, i) then (var i :| FirstDefect(lines, i); Defect(lines, i))
              else if start.version == "HTTP/1.1" && !NamedBefore(lines, |lines|, "host") then 400
              else if BodyBefore(lines, |lines|) then 413
              else if start.verb != "GET" && start.verb != "HEAD" then 405
              else 0
  {
    hide AddLines, FieldLines, Names, Defect, NamedBefore, BodyBefore, Find, EndsWithTerminator;
    var lines := FieldLines(raw);
    NothingCounted(lines);
    LinesCount(NoHeaders, lines, 0);
    assert lines[0..] == lines;
    NoFirstDefect(lines);
  }

  // ----- what is asked and what is told ------------------------------------

  /** path is the target up to its first question mark. */
  ghost predicate PathOf(target: string, path: string) {
    '?' !in path && path <= target && (|path| < |target| ==> target[|path|] == '?')
  }

  lemma PathIsCut(target: string)
    ensures PathOf(target, target[..Find(target, "?", 0)])
  {
    var i := Find(target, "?", 0);
    if i < |target| {
      assert target[i..i + 1] == "?";
    }
    forall j | 0 <= j < i
      ensures target[j] != '?'
    {
      assert !MatchesAt(target, "?", j);
      assert target[j..j + 1] == [target[j]];
    }
  }

  lemma PathEndsAtMark(target: string, path: string)
    requires PathOf(target, path)
    ensures path == target[..Find(target, "?", 0)]
  {
    forall j | 0 <= j < |path|
      ensures !MatchesAt(target, "?", j)
    {
      assert target[j] == path[j];
      assert target[j..j + 1] == [target[j]];
    }
    if |path| < |target| {
      assert target[|path|..|path| + 1] == "?";
      assert MatchesAt(target, "?", |path|);
    }
  }

  /** What a client of the server sends: a whole request text, or more than it may. */
  datatype Asked = Whole(raw: string) | Oversized

  ghost function WordsOf(raw: string): StartLine {
    SplitStart(FirstLine(raw))
  }

  /** The connection does not outlive the answer: the text has a defect, or its version and
      connection options say so. */
  ghost predicate Ends(raw: string) {
    ErrorOf(raw) != 0 ||
    !EndsWithTerminator(raw) || !Persists(IsVersion11(WordsOf(raw)), ConnectionValues(FieldLines(raw)))
  }

  /** The requests in a client's bytes that are answered, in order. */
  ghost function AskedIn(s: string, max: nat): seq<Asked>
    decreases |s|
  {
    var end := Find(s, TERMINATOR, 0);
    if end == |s| then (if |s| > max then [Oversized] else [])
    else if end + 4 > max then [Oversized]
    else [Whole(s[..end + 4])] + if Ends(s[..end + 4]) then [] else AskedIn(s[end + 4..], max)
  }

  /** An accepted request whose text up to the first space is HEAD. */
  ghost predicate AsksHead(a: Asked) {
    a.Whole? && ErrorOf(a.raw) == 0 && "HEAD " <= a.raw
  }

  /** The answer speaks HTTP/1.0: so does the request, as far as it can be told. */
  ghost predicate SpeaksOld(raw: string) {
    && EndsWithTerminator(raw) && AllPlain(raw)
    && GoodStart(WordsOf(raw)) && WordsOf(raw).version == "HTTP/1.0"
  }

  /** An answer as a client reads it. */
  function Reply(old10: bool, status: nat, mime: string, text: string, close: bool, allow: bool, head: bool): Message {
    Message(if old10 then "HTTP/1.0" else "HTTP/1.1", status, Reason(status), Some(mime), |text|,
            Some(if close then "close" else "keep-alive"), if allow then Some("GET, HEAD") else None,
            if head then "" else text)
  }

  /** What each of them has to be told: 431 for too much, its code for a defect, and the
      page its path names otherwise. */
  ghost predicate Told(a: Asked, m: Message) {
    match a
    case Oversized => m == Reply(false, 431, PLAIN, "Request Header Fields Too Large\n", true, false, false)
    case Whole(raw) =>
      var code := ErrorOf(raw);
      if code != 0 then m == Reply(SpeaksOld(raw), code, PLAIN, Reason(code) + "\n", true, code == 405, false)
      else
        WordsOf(raw).StartLine? &&
        forall path :: PathOf(WordsOf(raw).target, path) ==>
          m == if path == "/" || path == "/index.html" then
                 Reply(SpeaksOld(raw), 200, HTML, INDEX, Ends(raw), false, AsksHead(a))
               else if path == "/health" then
                 Reply(SpeaksOld(raw), 200, PLAIN, "ok\n", Ends(raw), false, AsksHead(a))
               else
                 Reply(SpeaksOld(raw), 404, PLAIN, "Not Found\n", Ends(raw), false, AsksHead(a))
  }

  /** The parts of an accepted request. */
  lemma AcceptedParts(raw: string)
    requires Parse(raw).error == 0
    ensures EndsWithTerminator(raw) && AllPlain(raw) && GoodStart(WordsOf(raw))
    ensures Parse(raw).head <==> WordsOf(raw).verb == "HEAD"
    ensures Parse(raw).path == WordsOf(raw).target[..Find(WordsOf(raw).target, "?", 0)]
    ensures Parse(raw).http10 <==> WordsOf(raw).version == "HTTP/1.0"
  {
    hide AddLines, FieldLines, Names, IsTokenName, GoodTarget, SplitStart, FirstLine, Find, EndsWithTerminator;
    var start := SplitStart(FirstLine(raw));
    SplitWords(FirstLine(raw));
    TargetIsGood(start.target);
  }

  /** The version an answer speaks does not depend on what else is wrong. */
  lemma OldIsSpoken(raw: string)
    ensures Parse(raw).http10 <==> SpeaksOld(raw)
  {
    hide AddLines, FieldLines, Names, IsTokenName, GoodTarget, SplitStart, FirstLine, Find, EndsWithTerminator;
    if EndsWithTerminator(raw) && AllPlain(raw) && SplitStart(FirstLine(raw)).StartLine? {
      SplitWords(FirstLine(raw));
      TargetIsGood(SplitStart(FirstLine(raw)).target);
    }
  }

  lemma HeadIsFirst(raw: string)
    requires WordsOf(raw).StartLine?
    ensures WordsOf(raw).verb == "HEAD" <==> "HEAD " <= raw
  {
    hide SplitStart, Find;
    var w := WordsOf(raw);
    SplitWords(FirstLine(raw));
    var line := FirstLine(raw);
    assert line <= raw;
    assert line[..|w.verb|] == w.verb && line[|w.verb|] == ' ';
    if "HEAD " <= raw {
      FirstWord(raw, w.verb);
    }
    if w.verb == "HEAD" {
      HeadOnLine(line);
    }
  }

  lemma HeadOnLine(line: string)
    requires |line| > 4 && line[..4] == "HEAD" && line[4] == ' '
    ensures "HEAD " <= line
  {
  }

  lemma FirstWord(raw: string, verb: string)
    requires "HEAD " <= raw && |verb| < |raw| && verb == raw[..|verb|] && raw[|verb|] == ' ' && ' ' !in verb
    ensures verb == "HEAD"
  {
    hide Find;
    assert raw[..4] == "HEAD" && raw[4] == ' ';
    forall j | 0 <= j < 4
      ensures raw[j] != ' '
    {
      assert raw[j] == "HEAD"[j];
    }
    SpaceAt(raw, 0, 4);
    SpaceAt(raw, 0, |verb|);
  }

  /** The server's answer to a request text is what has to be told. */
  lemma AnswerIsTold(raw: string)
    ensures var r := Answer(Parse(raw));
            && Told(Whole(raw), MessageOf(r))
            && (r.head <==> AsksHead(Whole(raw)))
            && (r.close <==> Ends(raw))
            && r.body != ""
  {
    hide Parse, ErrorOf, SplitStart, FirstLine, Find, EndsWithTerminator, FieldLines, ConnectionValues, Persists,
         GoodStart, SpeaksOld, Reason, AllPlain;
    ErrorIsFirstDefect(raw);
    OldIsSpoken(raw);
    var p := Parse(raw);
    if p.error == 0 {
      AcceptedParts(raw);
      CloseIsPersistence(raw);
      GoodIsSplit(WordsOf(raw));
      var target := WordsOf(raw).target;
      HeadIsFirst(raw);
      PathIsCut(target);
      forall path | PathOf(target, path)
        ensures path == p.path
      {
        PathEndsAtMark(target, path);
      }
    }
  }

  lemma GoodIsSplit(start: StartLine)
    ensures GoodStart(start) ==> start.StartLine?
  {
  }

  /** The answers of a transcript, one for each request asked. */
  lemma {:induction false} TranscriptTells(s: string, max: nat)
    ensures |Transcript(s, max)| == |AskedIn(s, max)|
    ensures forall i :: 0 <= i < |Transcript(s, max)| ==> Fits(AskedIn(s, max)[i], Transcript(s, max)[i])
    decreases |s|
  {
    hide Find, Parse, Answer, Fits, Ends;
    var end := Find(s, TERMINATOR, 0);
    FindEnd(s);
    OversizedIsTold();
    if end < |s| && end + 4 <= max {
      var raw := s[..end + 4];
      AnswerFits(raw);
      TranscriptTells(s[end + 4..], max);
    }
  }

  /** r is what has to be told about a. */
  ghost predicate Fits(a: Asked, r: Response) {
    Told(a, MessageOf(r)) && (r.head <==> AsksHead(a)) && r.body != ""
  }

  lemma AnswerFits(raw: string)
    ensures Fits(Whole(raw), Answer(Parse(raw))) && (Answer(Parse(raw)).close <==> Ends(raw))
  {
    hide Parse, Answer, Told, AsksHead, Ends, MessageOf;
    AnswerIsTold(raw);
  }

  lemma OversizedIsTold()
    ensures Fits(Oversized, TOO_LARGE)
  {
  }

  /** A client that knows which of its own requests were accepted HEAD requests reads back
      exactly what each request has to be told, in order, and an empty body exactly there. */
  lemma ClientReadsReplies(inputs: seq<string>, max: nat, acc: Acceptance)
    requires forall i :: 0 <= i < |inputs| ==> |inputs[i]| <= READ_SIZE
    requires AcceptsAll(acc)
    ensures var asked := AskedIn(Concat(inputs), max);
            var heads := seq(|asked|, i requires 0 <= i < |asked| => AsksHead(asked[i]));
            var read := Decode(Stream(Feed(Fresh, inputs, max, acc).out), heads);
            && read.Decoded? && |read.messages| == |asked|
            && forall i :: 0 <= i < |asked| ==>
                 Told(asked[i], read.messages[i]) && (read.messages[i].body == "" <==> AsksHead(asked[i]))
  {
    hide Feed, Decode, Transcript, Stream, AskedIn, Told, AsksHead, Concat;
    var s := Concat(inputs);
    var sent := Transcript(s, max);
    var asked := AskedIn(s, max);
    ClientReadsTranscript(inputs, max, acc);
    TranscriptTells(s, max);
    var heads := seq(|asked|, i requires 0 <= i < |asked| => AsksHead(asked[i]));
    assert heads == Heads(sent);
  }
}
