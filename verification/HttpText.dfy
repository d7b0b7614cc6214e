/** The text primitives of the HTTP example: searching, trimming, lower-casing,
    token names and comma-separated option lists. */
module HttpText {

  const CRLF: string := "\r\n"
  const TERMINATOR: string := "\r\n\r\n"

  // ----- searching ---------------------------------------------------------

  predicate MatchesAt(s: string, what: string, i: nat) {
    i + |what| <= |s| && s[i..i + |what|] == what
  }

  /** The first position of what in s from `from` on, or |s| if there is none.
      (A search for nonempty text never answers |s| when it succeeds.) */
  function Find(s: string, what: string, from: nat): (i: nat)
    requires what != "" && from <= |s|
    ensures from <= i <= |s|
    ensures i < |s| ==> MatchesAt(s, what, i)
    ensures forall j :: from <= j < i ==> !MatchesAt(s, what, j)
    ensures i == |s| ==> forall j :: from <= j ==> !MatchesAt(s, what, j)
    decreases |s| - from
  {
    if from == |s| then from
    else if MatchesAt(s, what, from) then from
    else Find(s, what, from + 1)
  }

  predicate Contains(s: string, what: string)
    requires what != ""
  {
    Find(s, what, 0) < |s|
  }

  lemma MatchInPrefix(a: string, b: string, what: string, j: nat)
    requires j + |what| <= |a|
    ensures MatchesAt(a + b, what, j) <==> MatchesAt(a, what, j)
  {
    assert (a + b)[j..j + |what|] == a[j..j + |what|];
  }

  /** A match inside a prefix stays the first match of the whole. */
  lemma FindInPrefix(a: string, b: string, what: string)
    requires what != "" && Find(a, what, 0) < |a|
    ensures Find(a + b, what, 0) == Find(a, what, 0)
  {
    var i := Find(a, what, 0);
    forall j | 0 <= j <= i
      ensures MatchesAt(a + b, what, j) <==> j == i
    {
      MatchInPrefix(a, b, what, j);
    }
    assert MatchesAt(a + b, what, i);
  }

  /** Text first completed by a suffix ends beyond the prefix. */
  lemma FindBeyondPrefix(a: string, b: string, what: string)
    requires what != "" && Find(a, what, 0) == |a|
    ensures Find(a + b, what, 0) < |a + b| ==> Find(a + b, what, 0) + |what| > |a|
  {
    forall j | 0 <= j && j + |what| <= |a|
      ensures !MatchesAt(a + b, what, j)
    {
      MatchInPrefix(a, b, what, j);
    }
  }

  /** A line without CR ends at the first CRLF. */
  lemma LineEndsAtCrlf(line: string, t: string)
    requires '\r' !in line
    ensures Find(line + CRLF + t, CRLF, 0) == |line|
  {
    var s := line + CRLF + t;
    assert s[|line|..|line| + 2] == CRLF;
    assert MatchesAt(s, CRLF, |line|);
    forall j | 0 <= j < |line|
      ensures !MatchesAt(s, CRLF, j)
    {
      assert s[j] == line[j];
      assert j + 2 <= |s| ==> s[j..j + 2][0] == line[j];
    }
  }

  /** The first space from some position on. */
  lemma SpaceAt(s: string, from: nat, i: nat)
    requires from <= i < |s| && s[i] == ' ' && forall j :: from <= j < i ==> s[j] != ' '
    ensures Find(s, " ", from) == i
  {
    assert s[i..i + 1] == " ";
    assert MatchesAt(s, " ", i);
    forall j | from <= j < i
      ensures !MatchesAt(s, " ", j)
    {
      assert s[j..j + 1] == [s[j]];
    }
  }

  /** A word ends at the first space. */
  lemma FindSpace(word: string, rest: string, from: nat)
    requires from <= |word| && forall i :: from <= i < |word| ==> word[i] != ' '
    ensures Find(word + " " + rest, " ", from) == |word|
  {
    SpaceAt(word + " " + rest, from, |word|);
  }

  /** A character that does not occur is not found. */
  lemma FindAbsent(s: string, what: string)
    requires |what| == 1 && what[0] !in s
    ensures Find(s, what, 0) == |s|
  {
    forall j | 0 <= j < |s|
      ensures !MatchesAt(s, what, j)
    {
      assert s[j] in s;
      assert s[j..j + 1] == [s[j]];
    }
  }

  // ----- trimming and case -------------------------------------------------

  predicate IsBlank(c: char) {
    c == ' ' || c == '\t'
  }

  function TrimFront(s: string): string {
    if s != "" && IsBlank(s[0]) then TrimFront(s[1..]) else s
  }

  function TrimBack(s: string): string {
    if s != "" && IsBlank(s[|s| - 1]) then TrimBack(s[..|s| - 1]) else s
  }

  function Trim(s: string): string {
    TrimBack(TrimFront(s))
  }

  lemma {:induction false} TrimFrontUnwraps(left: string, r: string)
    requires forall i :: 0 <= i < |left| ==> IsBlank(left[i])
    requires r != "" && !IsBlank(r[0])
    ensures TrimFront(left + r) == r
  {
    if left == "" {
      assert left + r == r;
    } else {
      assert (left + r)[1..] == left[1..] + r;
      TrimFrontUnwraps(left[1..], r);
    }
  }

  lemma {:induction false} TrimBackUnwraps(r: string, right: string)
    requires forall i :: 0 <= i < |right| ==> IsBlank(right[i])
    requires r != "" && !IsBlank(r[|r| - 1])
    ensures TrimBack(r + right) == r
  {
    if right == "" {
      assert r + right == r;
    } else {
      var n := |right| - 1;
      assert (r + right)[..|r + right| - 1] == r + right[..n];
      TrimBackUnwraps(r, right[..n]);
    }
  }

  /** A text that is a core without blanks at its ends, wrapped in blanks, trims
      to that core. */
  lemma TrimUnwraps(left: string, core: string, right: string)
    requires forall i :: 0 <= i < |left| ==> IsBlank(left[i])
    requires forall i :: 0 <= i < |right| ==> IsBlank(right[i])
    requires core != "" && !IsBlank(core[0]) && !IsBlank(core[|core| - 1])
    ensures Trim(left + core + right) == core
  {
    assert left + core + right == left + (core + right);
    TrimFrontUnwraps(left, core + right);
    TrimBackUnwraps(core, right);
  }

  method TrimView(s: string) returns (r: string)
    ensures r == Trim(s)
  {
    r := s;
    while r != "" && IsBlank(r[0])
      invariant TrimFront(r) == TrimFront(s)
      decreases |r|
    {
      r := r[1..];
    }
    ghost var front := r;
    while r != "" && IsBlank(r[|r| - 1])
      invariant TrimBack(r) == TrimBack(front)
      decreases |r|
    {
      r := r[..|r| - 1];
    }
  }

  function LowerChar(c: char): char {
    if 'A' <= c <= 'Z' then c - 'A' + 'a' else c
  }

  function Lower(s: string): string {
    seq(|s|, i requires 0 <= i < |s| => LowerChar(s[i]))
  }

  method LowerCopy(s: string) returns (r: string)
    ensures r == Lower(s)
  {
    r := "";
    for i := 0 to |s|
      invariant |r| == i && forall k :: 0 <= k < i ==> r[k] == LowerChar(s[k])
    {
      r := r + [LowerChar(s[i])];
    }
  }

  // ----- token names -------------------------------------------------------

  const TOKEN_EXTRA: string := "!#$%&'*+-.^_`|~"

  predicate IsTokenChar(c: char) {
    '0' <= c <= '9' || 'a' <= c <= 'z' || 'A' <= c <= 'Z' || c in TOKEN_EXTRA
  }

  predicate IsTokenName(s: string) {
    s != "" && forall i :: 0 <= i < |s| ==> IsTokenChar(s[i])
  }

  method TokenName(s: string) returns (ok: bool)
    ensures ok == IsTokenName(s)
  {
    if s == "" {
      return false;
    }
    for i := 0 to |s|
      invariant forall k :: 0 <= k < i ==> IsTokenChar(s[k])
    {
      if !IsTokenChar(s[i]) {
        return false;
      }
    }
    return true;
  }

  // ----- option lists ------------------------------------------------------

  /** The items of a comma-separated list, at least one. */
  function Items(s: string): (items: seq<string>)
    ensures items != []
  {
    var i := Find(s, ",", 0);
    if i == |s| then [s] else [s[..i]] + Items(s[i + 1..])
  }

  /** Some item, trimmed and lower-cased, is the option. */
  ghost predicate Named(items: seq<string>, option: string) {
    exists i :: 0 <= i < |items| && Lower(Trim(items[i])) == option
  }

  /** The comma-separated list names the option. */
  ghost predicate Names(list: string, option: string) {
    Named(Items(list), option)
  }

  lemma NamedConcat(a: seq<string>, b: seq<string>, option: string)
    ensures Named(a + b, option) <==> Named(a, option) || Named(b, option)
  {
    var ab := a + b;
    if Named(a, option) {
      var i :| 0 <= i < |a| && Lower(Trim(a[i])) == option;
      assert ab[i] == a[i];
    }
    if Named(b, option) {
      var i :| 0 <= i < |b| && Lower(Trim(b[i])) == option;
      assert ab[|a| + i] == b[i];
    }
  }

  /** Looking at the first item and then at what follows its comma. */
  lemma NamesStep(list: string, option: string)
    ensures var next := Find(list, ",", 0);
            Names(list, option) <==>
              Lower(Trim(list[..next])) == option || (next < |list| && Names(list[next + 1..], option))
  {
    hide Trim, Lower;
    var next := Find(list, ",", 0);
    var first := [list[..next]];
    assert Named(first, option) <==> Lower(Trim(first[0])) == option;
    if next == |list| {
      assert list[..next] == list;
    } else {
      NamedConcat(first, Items(list[next + 1..]), option);
    }
  }

  lemma EmptyNamesNothing(option: string)
    requires option != ""
    ensures !Names("", option)
  {
    assert Items("") == [""];
    assert Trim("") == "";
  }

  /** contains_token */
  method ContainsToken(list: string, option: string) returns (found: bool)
    requires option != ""
    ensures found <==> Names(list, option)
  {
    hide Names, Trim, Lower;
    var rest := list;
    EmptyNamesNothing(option);
    while rest != ""
      invariant Names(list, option) <==> Names(rest, option)
      decreases |rest|
    {
      NamesStep(rest, option);
      var next := Find(rest, ",", 0);
      var item := TrimView(rest[..next]);
      var lowered := LowerCopy(item);
      if lowered == option {
        return true;
      }
      if next == |rest| {
        return false;
      }
      rest := rest[next + 1..];
    }
    return false;
  }

  lemma ItemsStep(s: string, i: nat)
    requires Find(s, ",", 0) == i
    ensures Items(s) == if i == |s| then [s] else [s[..i]] + Items(s[i + 1..])
  {
  }

  lemma {:induction false} ItemsJoin(a: string, b: string)
    ensures Items(a + "," + b) == Items(a) + Items(b)
    decreases |a|
  {
    hide Items, Find;
    var s := a + "," + b;
    var i := Find(a, ",", 0);
    ItemsStep(a, i);
    ItemsStep(s, Find(s, ",", 0));
    if i == |a| {
      NoEarlierComma(a, b);
      assert s[..|a|] == a && s[|a| + 1..] == b;
    } else {
      FindInPrefix(a, "," + b, ",");
      assert a + ("," + b) == s;
      assert s[..i] == a[..i];
      assert s[i + 1..] == a[i + 1..] + "," + b;
      ItemsJoin(a[i + 1..], b);
    }
  }

  lemma NoEarlierComma(a: string, b: string)
    requires Find(a, ",", 0) == |a|
    ensures Find(a + "," + b, ",", 0) == |a|
  {
    var s := a + "," + b;
    assert s[|a|] == ',';
    assert MatchesAt(s, ",", |a|);
    forall j | 0 <= j < |a|
      ensures !MatchesAt(s, ",", j)
    {
      assert !MatchesAt(a, ",", j);
      assert s[j..j + 1] == a[j..j + 1];
    }
  }

  /** Joining two lists with a comma unites their options. */
  lemma NamesJoin(a: string, b: string, option: string)
    ensures Names(a + "," + b, option) <==> Names(a, option) || Names(b, option)
  {
    hide Items, Named;
    ItemsJoin(a, b);
    NamedConcat(Items(a), Items(b), option);
  }

  /** A lone option is recognised whatever its case and surrounding blanks. */
  lemma LoneOption(left: string, word: string, right: string, option: string)
    requires forall i :: 0 <= i < |left| ==> IsBlank(left[i])
    requires forall i :: 0 <= i < |right| ==> IsBlank(right[i])
    requires IsTokenName(word)
    ensures Names(left + word + right, option) <==> Lower(word) == option
  {
    hide Trim, Lower;
    var s := left + word + right;
    TrimUnwraps(left, word, right);
    forall j | 0 <= j < |s|
      ensures !MatchesAt(s, ",", j)
    {
      assert s[j..j + 1] == [s[j]];
    }
    NamesStep(s, option);
    assert s[..|s|] == s;
  }
}
