/** The client's parser over a stream object, as it runs. */
module PongClients {
  import opened Decimal
  import opened Pong
  import opened PongFrames
  import opened Wrappers

  /** The whole reading is what was read so far followed by the rest. */
  predicate Continues(all: Reading, values: seq<int>, rest: Reading) {
    all.good == rest.good && (all.good ==> all.values == values + rest.values && all.next == rest.next)
  }

  lemma ContinuesFurther(all: Reading, values: seq<int>, s: string, i: nat, k: nat)
    requires i <= |s| && k < FIELDS && Continues(all, values, ReadFields(s, i, k))
    ensures var e := Extract(s, i, KindOf(k));
            if e.good then Continues(all, values + [e.value], ReadFields(s, e.next, k + 1)) else !all.good
  {
    hide Extract;
    var e := Extract(s, i, KindOf(k));
    if e.good {
      var rest := ReadFields(s, e.next, k + 1);
      assert values + ([e.value] + rest.values) == (values + [e.value]) + rest.values;
    }
  }

  lemma TagIsFirst(packet: string)
    requires "S " <= packet
    ensures SkipSpace(packet, 0) == 0 && packet[0] == 'S'
  {
    assert packet[0] == "S "[0];
  }

  lemma NothingLeft(s: string, i: nat)
    requires i <= |s|
    ensures ReadFields(s, i, FIELDS) == Reading(true, [], i)
  {
  }

  /** A string stream with formatted extraction; a failed read makes every later one fail. */
  class InputStream {
    const text: string
    var pos: nat
    var good: bool

    constructor (text: string)
      ensures this.text == text && pos == 0 && good
    {
      this.text := text;
      pos := 0;
      good := true;
    }

    ghost predicate Valid()
      reads this
    {
      pos <= |text|
    }

    method SkipSpaces()
      requires Valid()
      modifies `pos
      ensures pos == SkipSpace(text, old(pos))
    {
      while pos < |text| && IsSpace(text[pos])
        invariant pos <= |text|
        invariant SkipSpace(text, pos) == SkipSpace(text, old(pos))
        decreases |text| - pos
      {
        pos := pos + 1;
      }
    }

    method ReadChar() returns (c: char)
      requires Valid() && good
      modifies this
      ensures Valid()
      ensures good == (SkipSpace(text, old(pos)) < |text|)
      ensures good ==> c == text[SkipSpace(text, old(pos))] && pos == SkipSpace(text, old(pos)) + 1
    {
      SkipSpaces();
      c := '\0';
      if pos < |text| {
        c := text[pos];
        pos := pos + 1;
      } else {
        good := false;
      }
    }

    method ReadDigits() returns (magnitude: nat)
      requires Valid()
      modifies `pos
      ensures pos == DigitsEnd(text, old(pos))
      ensures magnitude == Number(text[old(pos)..pos])
    {
      hide Number, AllDigits;
      magnitude := 0;
      assert text[pos..pos] == "";
      NumberOfNothing();
      while pos < |text| && IsDigit(text[pos])
        invariant old(pos) <= pos <= |text|
        invariant AllDigits(text[old(pos)..pos]) && magnitude == Number(text[old(pos)..pos])
        invariant DigitsEnd(text, pos) == DigitsEnd(text, old(pos))
        decreases |text| - pos
      {
        NumberSnoc(text[old(pos)..pos], text[pos]);
        assert text[old(pos)..pos + 1] == text[old(pos)..pos] + [text[pos]];
        magnitude := 10 * magnitude + Value(text[pos]);
        pos := pos + 1;
      }
    }

    /** One number of the given kind. */
    method ReadNumber(kind: Kind) returns (value: int)
      requires Valid()
      modifies this
      ensures Valid()
      ensures old(!good) ==> !good
      ensures old(good) ==>
                var e := Extract(text, old(pos), kind);
                good == e.good && (good ==> value == e.value && pos == e.next)
    {
      value := 0;
      if good {
        SkipSpaces();
        var negative := pos < |text| && text[pos] == '-';
        if negative || (pos < |text| && text[pos] == '+') {
          pos := pos + 1;
        }
        var start := pos;
        var magnitude := ReadDigits();
        good := start < pos && Fits(kind, negative, magnitude);
        value := Denoted(kind, negative, magnitude);
      }
    }

    /** Whether another word follows. */
    method HasWord() returns (found: bool)
      requires Valid() && good
      modifies this
      ensures found == (SkipSpace(text, old(pos)) < |text|)
    {
      SkipSpaces();
      found := pos < |text|;
    }

    /** Field k onwards, each extraction chained to the one before. */
    method ReadAll() returns (values: seq<int>)
      requires Valid() && good
      modifies this
      ensures Valid()
      ensures good == ReadFields(text, old(pos), 0).good
      ensures good ==> values == ReadFields(text, old(pos), 0).values && pos == ReadFields(text, old(pos), 0).next
    {
      hide Extract, ReadFields;
      values := [];
      ghost var all := ReadFields(text, pos, 0);
      var k := 0;
      while k < FIELDS
        invariant 0 <= k <= FIELDS && Valid() && |values| == k
        invariant good ==> Continues(all, values, ReadFields(text, pos, k))
        invariant !good ==> !all.good
      {
        if good {
          ContinuesFurther(all, values, text, pos, k);
        }
        var value := ReadNumber(KindOf(k));
        values := values + [value];
        k := k + 1;
      }
      if good {
        NothingLeft(text, pos);
      }
    }
  }

  class Client {
    var view: View

    constructor ()
      ensures view == NoView
    {
      view := NoView;
    }

    /** parse_state: the view changes only to a complete, well-placed, newer snapshot. */
    method ParseState(packet: string) returns (accepted: bool)
      modifies this
      ensures accepted == Accepts(old(view), packet)
      ensures view == Received(old(view), packet)
    {
      hide ReadFields, SkipSpace;
      if |packet| > MAX_PACKET || !("S " <= packet) {
        return false;
      }
      var input := new InputStream(packet);
      TagIsFirst(packet);
      var tag := input.ReadChar();
      var s := input.ReadAll();
      if !input.good {
        return false;
      }
      var trailing := input.HasWord();
      if tag != 'S' || trailing || !OnBoard(s) {
        return false;
      }
      if s[0] <= view.sequence {
        return false;
      }
      view := FromFields(s);
      return true;
    }
  }
}
