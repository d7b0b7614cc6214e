/** The text of a Pong snapshot: how the server prints one and what the client's
    formatted extraction makes of an arbitrary datagram. */
module PongFrames {
  import opened Decimal
  import opened Pong
  import opened Wrappers

  const MAX_PACKET: nat := 128
  const FIELDS: nat := 8
  const TWO64: nat := 0x1_0000_0000_0000_0000
  const TWO31: nat := 0x8000_0000

  // ----- printing ----------------------------------------------------------

  /** The fields in the order they are printed and read. */
  function ToFields(v: View): (f: seq<int>)
    ensures |f| == FIELDS
  {
    [v.sequence, v.ly, v.ry, v.x, v.y, v.score1, v.score2, v.occupied]
  }

  predicate Natural(v: View) {
    0 <= v.ly && 0 <= v.ry && 0 <= v.x && 0 <= v.y && 0 <= v.score1 && 0 <= v.score2 && 0 <= v.occupied
  }

  predicate AllNatural(f: seq<int>) {
    forall k :: 0 <= k < |f| ==> 0 <= f[k]
  }

  function FieldText(n: int): string
    requires 0 <= n
  {
    " " + Digits(n)
  }

  function FieldsText(f: seq<int>): string
    requires AllNatural(f)
  {
    if f == [] then "" else FieldText(f[0]) + FieldsText(f[1..])
  }

  function Frame(v: View): string
    requires Natural(v)
  {
    "S" + FieldsText(ToFields(v))
  }

  // ----- formatted extraction ----------------------------------------------

  predicate IsSpace(c: char) {
    c == ' ' || c == '\t' || c == '\n' || c == '\r' || c == '\U{0b}' || c == '\U{0c}'
  }

  /** The first position at or after i that holds no white space. */
  function SkipSpace(s: string, i: nat): (j: nat)
    requires i <= |s|
    ensures i <= j <= |s|
    decreases |s| - i
  {
    if i < |s| && IsSpace(s[i]) then SkipSpace(s, i + 1) else i
  }

  function SkipSign(s: string, i: nat): (j: nat)
    requires i <= |s|
    ensures i <= j <= |s|
  {
    if i < |s| && (s[i] == '+' || s[i] == '-') then i + 1 else i
  }

  /** The end of the digits that start at i. */
  function DigitsEnd(s: string, i: nat): (j: nat)
    requires i <= |s|
    ensures i <= j <= |s|
    ensures AllDigits(s[i..j])
    ensures j < |s| ==> !IsDigit(s[j])
    decreases |s| - i
  {
    if i < |s| && IsDigit(s[i]) then
      assert s[i..DigitsEnd(s, i + 1)] == [s[i]] + s[i + 1..DigitsEnd(s, i + 1)];
      DigitsEnd(s, i + 1)
    else i
  }

  datatype Kind = Unsigned64 | Signed32

  predicate Fits(kind: Kind, negative: bool, magnitude: nat) {
    match kind
    case Unsigned64 => magnitude < TWO64
    case Signed32 => if negative then magnitude <= TWO31 else magnitude < TWO31
  }

  /** An unsigned field accepts a minus sign and negates modulo 2^64. */
  function Denoted(kind: Kind, negative: bool, magnitude: nat): int {
    match kind
    case Unsigned64 => if negative && magnitude > 0 then TWO64 - magnitude else magnitude
    case Signed32 => if negative then 0 - magnitude else magnitude
  }

  datatype Extraction = Extraction(good: bool, value: int, next: nat)

  /** One number: white space, a sign, digits. Without a digit, or out of range, it fails. */
  function Extract(s: string, i: nat, kind: Kind): (e: Extraction)
    requires i <= |s|
    ensures e.next <= |s|
  {
    var start := SkipSpace(s, i);
    var body := SkipSign(s, start);
    var next := DigitsEnd(s, body);
    var negative := body > start && s[start] == '-';
    var magnitude := Number(s[body..next]);
    Extraction(body < next && Fits(kind, negative, magnitude), Denoted(kind, negative, magnitude), next)
  }

  function KindOf(k: nat): Kind {
    if k == 0 then Unsigned64 else Signed32
  }

  datatype Reading = Reading(good: bool, values: seq<int>, next: nat)

  /** Fields k and later, each read where the one before it ended. */
  function ReadFields(s: string, i: nat, k: nat): (r: Reading)
    requires i <= |s| && k <= FIELDS
    ensures r.good ==> |r.values| == FIELDS - k && r.next <= |s|
    decreases FIELDS - k
  {
    if k == FIELDS then Reading(true, [], i)
    else
      var e := Extract(s, i, KindOf(k));
      if !e.good then Reading(false, [], i)
      else
        var rest := ReadFields(s, e.next, k + 1);
        Reading(rest.good, [e.value] + rest.values, rest.next)
  }

  function FromFields(f: seq<int>): View
    requires |f| == FIELDS && 0 <= f[0]
  {
    View(f[0], f[1], f[2], f[3], f[4], f[5], f[6], f[7])
  }

  predicate OnBoard(f: seq<int>)
    requires |f| == FIELDS
  {
    && 0 <= f[1] <= 9 && 0 <= f[2] <= 9 && 0 <= f[3] < 24 && 0 <= f[4] < 12
    && 0 <= f[5] && 0 <= f[6] && 0 <= f[7] <= 3
  }

  lemma SequenceIsNatural(s: string, i: nat)
    requires i <= |s|
    ensures ReadFields(s, i, 0).good ==> 0 <= ReadFields(s, i, 0).values[0]
  {
  }

  /** What the client makes of a datagram, before it compares sequence numbers. */
  function Parse(packet: string): Option<View> {
    if |packet| > MAX_PACKET || !("S " <= packet) then None
    else
      var r := ReadFields(packet, 1, 0);
      if r.good && SkipSpace(packet, r.next) == |packet| && OnBoard(r.values) then
        (SequenceIsNatural(packet, 1); Some(FromFields(r.values)))
      else None
  }

  predicate Accepts(v: View, packet: string) {
    Parse(packet).Some? && Parse(packet).value.sequence > v.sequence
  }

  /** The client's view after a datagram. */
  function Received(v: View, packet: string): View {
    if Accepts(v, packet) then Parse(packet).value else v
  }

  // ----- reading back what was printed -------------------------------------

  /** Text that ends a field: nothing, or a space. */
  predicate Ends(rest: string) {
    rest != "" ==> rest[0] == ' '
  }

  lemma {:induction false} DigitsEndAt(s: string, i: nat, j: nat)
    requires i <= j <= |s| && AllDigits(s[i..j])
    requires j < |s| ==> !IsDigit(s[j])
    ensures DigitsEnd(s, i) == j
    decreases j - i
  {
    if i < j {
      assert s[i] == s[i..j][0];
      assert s[i + 1..j] == s[i..j][1..];
      DigitsEndAt(s, i + 1, j);
    }
  }

  /** A printed number is read back when it is in range, and rejected otherwise. */
  lemma ExtractPrinted(before: string, n: nat, rest: string, kind: Kind)
    requires Ends(rest)
    ensures var s := before + FieldText(n) + rest;
            var e := Extract(s, |before|, kind);
            && (e.good <==> Fits(kind, false, n))
            && e.value == n && e.next == |before + FieldText(n)|
  {
    DigitsRoundTrip(n);
    var s := before + FieldText(n) + rest;
    var i := |before|;
    var j := i + 1 + |Digits(n)|;
    assert s[i] == ' ';
    assert s[i + 1..j] == Digits(n);
    assert s[i + 1] == Digits(n)[0];
    assert j < |s| ==> s[j] == rest[0];
    assert SkipSpace(s, i) == i + 1;
    DigitsEndAt(s, i + 1, j);
  }

  predicate AllFit(f: seq<int>, k: nat)
    requires AllNatural(f)
  {
    forall m :: 0 <= m < |f| ==> Fits(KindOf(k + m), false, f[m])
  }

  lemma FieldsTextEnds(f: seq<int>)
    requires AllNatural(f)
    ensures Ends(FieldsText(f))
  {
  }

  /** Reading printed fields gives them back, exactly when each is in range. */
  lemma {:induction false} ReadPrinted(before: string, f: seq<int>, k: nat)
    requires AllNatural(f) && k + |f| == FIELDS
    ensures var s := before + FieldsText(f);
            var r := ReadFields(s, |before|, k);
            && (r.good <==> AllFit(f, k))
            && (r.good ==> r.values == f && r.next == |s|)
    decreases |f|
  {
    hide Extract, FieldText, AllFit, Fits, Ends;
    var s := before + FieldsText(f);
    if f == [] {
      assert s == before;
      assert AllFit(f, k) by { FitNothing(f, k); }
    } else {
      var rest := FieldsText(f[1..]);
      var further := before + FieldText(f[0]);
      FieldsTextEnds(f[1..]);
      assert s == further + rest;
      ExtractPrinted(before, f[0], rest, KindOf(k));
      ReadPrinted(further, f[1..], k + 1);
      FitSplits(f, k);
    }
  }

  lemma FitNothing(f: seq<int>, k: nat)
    requires f == []
    ensures AllFit(f, k)
  {
  }

  lemma FitSplits(f: seq<int>, k: nat)
    requires AllNatural(f) && f != []
    ensures AllFit(f, k) <==> Fits(KindOf(k), false, f[0]) && AllFit(f[1..], k + 1)
  {
    if AllFit(f, k) {
      assert Fits(KindOf(k + 0), false, f[0]);
      forall m | 0 <= m < |f[1..]|
        ensures Fits(KindOf(k + 1 + m), false, f[1..][m])
      {
        assert Fits(KindOf(k + (m + 1)), false, f[m + 1]);
      }
    }
    if Fits(KindOf(k), false, f[0]) && AllFit(f[1..], k + 1) {
      forall m | 0 <= m < |f|
        ensures Fits(KindOf(k + m), false, f[m])
      {
        if m > 0 {
          assert f[m] == f[1..][m - 1];
          assert Fits(KindOf(k + 1 + (m - 1)), false, f[1..][m - 1]);
        }
      }
    }
  }

  /** Inside the board and inside the integer types of both programs. */
  predicate Displayable(v: View) {
    && v.sequence < TWO64 && 0 <= v.ly <= 9 && 0 <= v.ry <= 9 && 0 <= v.x < 24 && 0 <= v.y < 12
    && 0 <= v.score1 < TWO31 && 0 <= v.score2 < TWO31 && 0 <= v.occupied <= 3
  }

  lemma FieldTextShort(n: nat, k: nat)
    requires n < PowerOfTen(k) && k > 0
    ensures |FieldText(n)| <= k + 1
  {
    DigitsShort(n, k);
  }

  lemma FieldsTextUnrolled(f: seq<int>)
    requires |f| == FIELDS && AllNatural(f)
    ensures |FieldsText(f)| == |FieldText(f[0])| + |FieldText(f[1])| + |FieldText(f[2])| + |FieldText(f[3])|
                             + |FieldText(f[4])| + |FieldText(f[5])| + |FieldText(f[6])| + |FieldText(f[7])|
  {
    hide FieldText;
    TwoFields(f);
    TwoFields(f[2..]);
    TwoFields(f[4..]);
    TwoFields(f[6..]);
    assert f[2..][2..] == f[4..] && f[4..][2..] == f[6..] && f[6..][2..] == [];
  }

  lemma TwoFields(f: seq<int>)
    requires |f| >= 2 && AllNatural(f)
    ensures |FieldsText(f)| == |FieldText(f[0])| + |FieldText(f[1])| + |FieldsText(f[2..])|
  {
    assert f[1..][1..] == f[2..];
  }

  lemma PowersOfTen()
    ensures PowerOfTen(1) == 10 && PowerOfTen(2) == 100
    ensures PowerOfTen(10) > TWO31 && PowerOfTen(20) > TWO64
  {
    PowersDouble(5);
    PowersDouble(10);
  }

  lemma PowersDouble(k: nat)
    ensures k == 5 ==> PowerOfTen(10) == 10000000000
    ensures k == 10 ==> PowerOfTen(20) == 100000000000000000000
  {
    if k == 5 || k == 10 {
      assert PowerOfTen(5) == 100000;
      assert PowerOfTen(10) == 10000000000;
      if k == 10 {
        assert PowerOfTen(15) == 1000000000000000;
      }
    }
  }

  lemma FrameShort(v: View)
    requires Displayable(v)
    ensures |Frame(v)| <= 61
  {
    var f := ToFields(v);
    hide FieldsText, FieldText, PowerOfTen;
    PowersOfTen();
    FieldTextShort(f[0], 20);
    FieldTextShort(f[1], 1);
    FieldTextShort(f[2], 1);
    FieldTextShort(f[3], 2);
    FieldTextShort(f[4], 2);
    FieldTextShort(f[5], 10);
    FieldTextShort(f[6], 10);
    FieldTextShort(f[7], 1);
    FieldsTextUnrolled(f);
  }

  lemma FitIffInTypes(v: View)
    requires Natural(v)
    ensures Displayable(v) <==> AllFit(ToFields(v), 0) && OnBoard(ToFields(v))
  {
    var f := ToFields(v);
    if AllFit(f, 0) {
      assert Fits(KindOf(0 + 0), false, f[0]);
      assert Fits(KindOf(0 + 5), false, f[5]);
      assert Fits(KindOf(0 + 6), false, f[6]);
    }
    if Displayable(v) {
      forall m | 0 <= m < |f|
        ensures Fits(KindOf(0 + m), false, f[m])
      {
      }
    }
  }

  /** A printed view is accepted exactly when it is displayable, and then it is read
      back field for field. */
  lemma FrameReadBack(v: View)
    requires Natural(v)
    ensures Displayable(v) <==> Parse(Frame(v)).Some?
    ensures Displayable(v) ==> Parse(Frame(v)) == Some(v)
  {
    hide ReadFields, FieldsText, AllFit, SkipSpace, Displayable;
    var f := ToFields(v);
    var s := Frame(v);
    assert s == "S" + FieldsText(f);
    ReadPrinted("S", f, 0);
    FitIffInTypes(v);
    FrameStart(v);
    if Displayable(v) {
      FrameShort(v);
    }
  }

  lemma FrameStart(v: View)
    requires Natural(v)
    ensures "S " <= Frame(v)
  {
    var f := ToFields(v);
    assert FieldsText(f)[0] == ' ';
  }

  // ----- the channel -------------------------------------------------------

  /** The other datagrams a server sends: seat numbers and a full table. */
  predicate Greeting(packet: string) {
    packet == "FULL" || packet == "W 1" || packet == "W 2"
  }

  /** A view shows nothing before the first snapshot arrives. */
  const NoView := View(0, 4, 4, 12, 6, 0, 0, 0)

  /** Every snapshot printed in a run, oldest first, carries its own number. */
  predicate Numbered(history: seq<View>) {
    forall i :: 0 <= i < |history| ==> history[i].sequence == i + 1
  }

  predicate AllDisplayable(history: seq<View>) {
    forall i :: 0 <= i < |history| ==> Displayable(history[i])
  }

  predicate IsFrameOf(history: seq<View>, packet: string) {
    exists i :: 0 <= i < |history| && Natural(history[i]) && packet == Frame(history[i])
  }

  /** A lossy, duplicating, reordering network delivers only what was sent. */
  predicate FromServer(history: seq<View>, packets: seq<string>) {
    forall k :: 0 <= k < |packets| ==> Greeting(packets[k]) || IsFrameOf(history, packets[k])
  }

  /** The client's view after datagrams arrive in some order. */
  function ReceivedAll(v: View, packets: seq<string>): View {
    if packets == [] then v else Received(ReceivedAll(v, packets[..|packets| - 1]), packets[|packets| - 1])
  }

  lemma GreetingsAreIgnored(packet: string)
    requires Greeting(packet)
    ensures Parse(packet).None?
  {
    assert packet[0] == 'S' ==> false;
  }

  /** v is the delivered snapshot with the greatest sequence number, or the initial
      view if none was delivered. */
  ghost predicate Latest(history: seq<View>, packets: seq<string>, v: View) {
    && (v == NoView || (v in history && Natural(v) && Frame(v) in packets))
    && (forall i :: 0 <= i < |history| && Natural(history[i]) && Frame(history[i]) in packets ==>
          history[i].sequence <= v.sequence)
  }

  /** Two snapshots of a run with one sequence number, or one text, are one snapshot. */
  lemma FramesAreDistinct(history: seq<View>, i: nat, j: nat)
    requires Numbered(history) && AllDisplayable(history) && i < |history| && j < |history|
    requires Frame(history[i]) == Frame(history[j])
    ensures i == j
  {
    hide Frame, Parse;
    FrameReadBack(history[i]);
    FrameReadBack(history[j]);
  }

  /** After any loss, duplication or reordering the client shows the delivered
      snapshot with the greatest sequence number. */
  lemma {:induction false} ClientShowsLatest(history: seq<View>, packets: seq<string>)
    requires Numbered(history) && AllDisplayable(history) && FromServer(history, packets)
    ensures Latest(history, packets, ReceivedAll(NoView, packets))
    decreases |packets|
  {
    hide Displayable, Frame, Parse;
    if packets != [] {
      var before := packets[..|packets| - 1];
      var last := packets[|packets| - 1];
      assert FromServer(history, before);
      ClientShowsLatest(history, before);
      LatestStep(history, before, last, ReceivedAll(NoView, before));
      assert packets == before + [last];
    }
  }

  lemma LatestStep(history: seq<View>, before: seq<string>, last: string, v: View)
    requires Numbered(history) && AllDisplayable(history)
    requires Greeting(last) || IsFrameOf(history, last)
    requires Latest(history, before, v)
    ensures Latest(history, before + [last], Received(v, last))
  {
    hide Displayable, Frame, Parse, Natural;
    forall i | 0 <= i < |history| && Natural(history[i])
      ensures Parse(Frame(history[i])) == Some(history[i])
    {
      FrameReadBack(history[i]);
    }
    if Greeting(last) {
      GreetingsAreIgnored(last);
    }
  }
}
