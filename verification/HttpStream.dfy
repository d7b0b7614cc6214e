/** One client of the HTTP example: bytes arrive in reads of any size, requests are
    cut out of them, answered in order, and the connection is closed or retired.

    acc says which responses the bounded output queue accepts: acc(n) for the one
    that would be the n-th. */
module HttpStream {
  import opened HttpText
  import opened HttpParse
  import opened HttpResponse

  type Acceptance = nat -> bool

  const MAX_PIPELINED: nat := 32
  const READ_SIZE: nat := 256

  /** closing: a response marked close was accepted; retired: one was refused. */
  datatype Conn = Conn(incoming: string, closing: bool, retired: bool, out: seq<Response>)

  const Fresh := Conn("", false, false, [])

  predicate Open(c: Conn) {
    !c.closing && !c.retired
  }

  function Respond(c: Conn, r: Response, acc: Acceptance): Conn {
    var ok := acc(|c.out|);
    c.(out := if ok then c.out + [r] else c.out,
       closing := c.closing || (ok && r.close),
       retired := c.retired || !ok)
  }

  /** The request that ends at the terminator at `end` leaves the buffer and is
      answered. */
  ghost function Handle(c: Conn, end: nat, acc: Acceptance): Conn
    requires end + 4 <= |c.incoming|
  {
    Respond(c.(incoming := c.incoming[end + 4..]), Answer(Parse(c.incoming[..end + 4])), acc)
  }

  /** The loop of receive, `processed` requests into it. */
  ghost function Loop(c: Conn, max: nat, processed: nat, acc: Acceptance): Conn
    decreases |c.incoming|
  {
    var end := Find(c.incoming, TERMINATOR, 0);
    if !Open(c) then c
    else if end == |c.incoming| then (if |c.incoming| > max then Respond(c, TOO_LARGE, acc) else c)
    else if end + 4 > max then Respond(c, TOO_LARGE, acc)
    else if processed >= MAX_PIPELINED then Respond(c, TOO_MANY, acc)
    else Loop(Handle(c, end, acc), max, processed + 1, acc)
  }

  function Settle(c: Conn): Conn {
    c.(incoming := if c.closing then "" else c.incoming)
  }

  /** receive: one read delivered by the poller. */
  ghost function Receive(c: Conn, data: string, max: nat, acc: Acceptance): Conn {
    if !Open(c) || data == "" then c
    else
      var d := Settle(Loop(c.(incoming := c.incoming + data), max, 0, acc));
      if Open(d) && |d.incoming| > max then Respond(d, TOO_LARGE, acc) else d
  }

  /** All reads of a connection, in order. */
  ghost function Feed(c: Conn, inputs: seq<string>, max: nat, acc: Acceptance): Conn
    decreases |inputs|
  {
    if inputs == [] then c
    else Receive(Feed(c, inputs[..|inputs| - 1], max, acc), inputs[|inputs| - 1], max, acc)
  }

  // ----- the same without reads and without the pipelining limit -----------

  ghost function Drain(c: Conn, max: nat, acc: Acceptance): Conn
    decreases |c.incoming|
  {
    var end := Find(c.incoming, TERMINATOR, 0);
    if !Open(c) then c
    else if end == |c.incoming| then (if |c.incoming| > max then Respond(c, TOO_LARGE, acc) else c)
    else if end + 4 > max then Respond(c, TOO_LARGE, acc)
    else Drain(Handle(c, end, acc), max, acc)
  }

  function Concat(inputs: seq<string>): string {
    if inputs == [] then "" else Concat(inputs[..|inputs| - 1]) + inputs[|inputs| - 1]
  }

  /** No complete request waits and the rest is within the limit. */
  ghost predicate Waiting(c: Conn, max: nat) {
    Open(c) ==> Find(c.incoming, TERMINATOR, 0) == |c.incoming| && |c.incoming| <= max
  }

  // ----- one step ----------------------------------------------------------

  lemma DrainStep(c: Conn, max: nat, acc: Acceptance, end: nat)
    requires Open(c) && end == Find(c.incoming, TERMINATOR, 0)
    ensures end < |c.incoming| && end + 4 <= max ==>
              end + 4 <= |c.incoming| && Drain(c, max, acc) == Drain(Handle(c, end, acc), max, acc)
    ensures end < |c.incoming| && end + 4 > max ==> Drain(c, max, acc) == Respond(c, TOO_LARGE, acc)
    ensures end == |c.incoming| ==>
              Drain(c, max, acc) == if |c.incoming| > max then Respond(c, TOO_LARGE, acc) else c
  {
    hide Respond, Handle;
  }

  lemma LoopStep(c: Conn, max: nat, processed: nat, acc: Acceptance, end: nat)
    requires Open(c) && end == Find(c.incoming, TERMINATOR, 0) && processed < MAX_PIPELINED
    ensures end < |c.incoming| && end + 4 <= max ==>
              end + 4 <= |c.incoming| &&
              Loop(c, max, processed, acc) == Loop(Handle(c, end, acc), max, processed + 1, acc)
    ensures end < |c.incoming| && end + 4 > max ==> Loop(c, max, processed, acc) == Respond(c, TOO_LARGE, acc)
    ensures end == |c.incoming| ==>
              Loop(c, max, processed, acc) == if |c.incoming| > max then Respond(c, TOO_LARGE, acc) else c
  {
    hide Respond, Handle;
  }

  lemma TooLargeEnds(c: Conn, acc: Acceptance)
    ensures !Open(Respond(c, TOO_LARGE, acc))
  {
  }

  /** A request whose answer leaves the connection open is at least 16 octets. */
  lemma OpenAfterHandle(c: Conn, end: nat, acc: Acceptance)
    requires end + 4 <= |c.incoming| && Open(Handle(c, end, acc))
    ensures end + 4 >= 16
  {
    hide Parse, Answer;
    var raw := c.incoming[..end + 4];
    AnswersAreWritable(Parse(raw));
    if Parse(raw).error == 0 {
      AcceptedLength(raw);
    }
  }

  // ----- the pipelining limit never fires ----------------------------------

  /** Once a request of this read has been handled, what is left came from the read,
      and every further request uses up 16 octets of it: the limit of 32 is out of
      reach. */
  lemma {:induction false} LoopIsDrain(c: Conn, max: nat, processed: nat, acc: Acceptance)
    requires processed > 0 ==> |c.incoming| + 16 * (processed - 1) < READ_SIZE
    requires processed == 0 ==> |c.incoming| - Find(c.incoming, TERMINATOR, 0) - 4 < READ_SIZE
    ensures Loop(c, max, processed, acc) == Drain(c, max, acc)
    decreases |c.incoming|
  {
    hide Loop, Drain, Respond, Handle;
    if Open(c) {
      var end := Find(c.incoming, TERMINATOR, 0);
      LoopStep(c, max, processed, acc, end);
      DrainStep(c, max, acc, end);
      if end < |c.incoming| && end + 4 <= max {
        var d := Handle(c, end, acc);
        HandleLeaves(c, end, acc);
        if Open(d) {
          OpenAfterHandle(c, end, acc);
          LoopIsDrain(d, max, processed + 1, acc);
        } else {
          ClosedStops(d, max, processed + 1, acc);
        }
      }
    } else {
      ClosedStops(c, max, processed, acc);
    }
  }

  lemma HandleLeaves(c: Conn, end: nat, acc: Acceptance)
    requires end + 4 <= |c.incoming|
    ensures Handle(c, end, acc).incoming == c.incoming[end + 4..]
  {
    hide Parse, Answer;
  }

  lemma ClosedStops(c: Conn, max: nat, processed: nat, acc: Acceptance)
    requires !Open(c)
    ensures Loop(c, max, processed, acc) == c && Drain(c, max, acc) == c
  {
  }

  lemma {:induction false} DrainWaits(c: Conn, max: nat, acc: Acceptance)
    ensures Waiting(Drain(c, max, acc), max)
    decreases |c.incoming|
  {
    hide Drain, Respond, Handle;
    if Open(c) {
      var end := Find(c.incoming, TERMINATOR, 0);
      DrainStep(c, max, acc, end);
      TooLargeEnds(c, acc);
      if end < |c.incoming| && end + 4 <= max {
        HandleLeaves(c, end, acc);
        DrainWaits(Handle(c, end, acc), max, acc);
      }
    } else {
      ClosedStops(c, max, 0, acc);
    }
  }

  /** One read of at most 256 octets: neither the pipelining limit nor the final size
      check ever fires. */
  lemma ReceiveIsDrain(c: Conn, data: string, max: nat, acc: Acceptance)
    requires Waiting(c, max) && |data| <= READ_SIZE && Open(c) && data != ""
    ensures Receive(c, data, max, acc) == Settle(Drain(c.(incoming := c.incoming + data), max, acc))
  {
    hide Loop, Drain, Respond, Find;
    FindBeyondPrefix(c.incoming, data, TERMINATOR);
    var c1 := c.(incoming := c.incoming + data);
    LoopIsDrain(c1, max, 0, acc);
    DrainWaits(c1, max, acc);
  }

  // ----- reads do not matter -----------------------------------------------

  /** More bytes arrive; a closed connection ignores them. */
  function Absorb(c: Conn, data: string): Conn {
    c.(incoming := if Open(c) then c.incoming + data else c.incoming)
  }

  /** Alike in everything but the buffer of a connection that is over. */
  predicate Alike(c: Conn, d: Conn) {
    && c.out == d.out && c.closing == d.closing && c.retired == d.retired
    && (Open(c) ==> c.incoming == d.incoming)
  }

  lemma RespondAlike(c: Conn, d: Conn, r: Response, acc: Acceptance)
    requires c.out == d.out && c.closing == d.closing && c.retired == d.retired && r.close && Open(c)
    ensures Alike(Respond(c, r, acc), Respond(d, r, acc))
  {
  }

  /** Draining a + b is draining a, letting b arrive, and draining again. */
  lemma {:induction false} DrainSplits(c: Conn, b: string, max: nat, acc: Acceptance)
    requires Open(c)
    ensures Alike(Drain(Absorb(c, b), max, acc), Drain(Absorb(Drain(c, max, acc), b), max, acc))
    decreases |c.incoming|
  {
    hide Drain, Respond, Handle, Find;
    var a := c.incoming;
    var whole := Absorb(c, b);
    var end := Find(a, TERMINATOR, 0);
    var endAll := Find(a + b, TERMINATOR, 0);
    DrainStep(c, max, acc, end);
    DrainStep(whole, max, acc, endAll);
    if end < |a| {
      FindInPrefix(a, b, TERMINATOR);
      if end + 4 > max {
        DrainStopsAlike(c, whole, b, max, acc);
      } else {
        HandleAbsorbs(c, end, b, acc);
        HandleLeaves(c, end, acc);
        var d := Handle(c, end, acc);
        if Open(d) {
          DrainSplits(d, b, max, acc);
        } else {
          ClosedDrainAlike(d, b, max, acc);
        }
      }
    } else if |a| > max {
      FindBeyondPrefix(a, b, TERMINATOR);
      DrainStopsAlike(c, whole, b, max, acc);
    }
  }

  lemma DrainStopsAlike(c: Conn, whole: Conn, b: string, max: nat, acc: Acceptance)
    requires Open(c) && whole == Absorb(c, b)
    requires Drain(c, max, acc) == Respond(c, TOO_LARGE, acc)
    requires Drain(whole, max, acc) == Respond(whole, TOO_LARGE, acc)
    ensures Alike(Drain(whole, max, acc), Drain(Absorb(Drain(c, max, acc), b), max, acc))
  {
    hide Drain;
    RespondAlike(whole, c, TOO_LARGE, acc);
    TooLargeEnds(c, acc);
    ClosedStops(Respond(c, TOO_LARGE, acc), max, 0, acc);
  }

  lemma ClosedDrainAlike(d: Conn, b: string, max: nat, acc: Acceptance)
    requires !Open(d)
    ensures Absorb(d, b) == d && Drain(d, max, acc) == d
    ensures forall e: Conn :: !Open(e) && e == d.(incoming := e.incoming) ==> Drain(e, max, acc) == e
  {
    forall e: Conn | !Open(e) && e == d.(incoming := e.incoming)
      ensures Drain(e, max, acc) == e
    {
      ClosedStops(e, max, 0, acc);
    }
    ClosedStops(d, max, 0, acc);
  }

  /** Handling the first request commutes with the arrival of more bytes. */
  lemma HandleAbsorbs(c: Conn, end: nat, b: string, acc: Acceptance)
    requires Open(c) && end + 4 <= |c.incoming|
    ensures var d := Handle(c, end, acc);
            Handle(Absorb(c, b), end, acc) == d.(incoming := d.incoming + b)
  {
    hide Parse, Answer;
    var a := c.incoming;
    assert (a + b)[..end + 4] == a[..end + 4];
    assert (a + b)[end + 4..] == a[end + 4..] + b;
  }

  lemma {:induction false} EmptyReadIsNothing(c: Conn, max: nat, acc: Acceptance)
    requires Waiting(c, max)
    ensures Drain(c, max, acc) == c
  {
    hide Respond, Handle;
    if Open(c) {
      DrainStep(c, max, acc, |c.incoming|);
    } else {
      ClosedStops(c, max, 0, acc);
    }
  }

  lemma FeedAlike(f: Conn, w: Conn, x: string, max: nat, acc: Acceptance)
    requires Waiting(w, max) && Alike(f, Settle(w)) && (Open(f) ==> f == w) && |x| <= READ_SIZE
    ensures var f' := Receive(f, x, max, acc);
            var w' := Drain(Absorb(w, x), max, acc);
            Alike(f', Settle(w')) && (Open(f') ==> f' == w') && (f'.closing && !f.closing ==> f'.incoming == "")
  {
    hide Drain, Loop, Respond, Find;
    if Open(f) {
      if x == "" {
        assert w.incoming + x == w.incoming;
        EmptyReadIsNothing(w, max, acc);
      } else {
        ReceiveIsDrain(f, x, max, acc);
      }
    } else {
      ClosedStops(w, max, 0, acc);
    }
  }

  /** However the bytes of a client are cut into reads of at most 256, the answers,
      the closing and retiring flags and what is left in the buffer are those of one
      pass over the whole, without a pipelining limit.  Only the buffer of a retired
      connection, which is never looked at again, may differ. */
  lemma {:induction false} ReadsDoNotMatter(inputs: seq<string>, max: nat, acc: Acceptance)
    requires forall i :: 0 <= i < |inputs| ==> |inputs[i]| <= READ_SIZE
    ensures var f := Feed(Fresh, inputs, max, acc);
            var w := Drain(Fresh.(incoming := Concat(inputs)), max, acc);
            && Alike(f, Settle(w)) && (Open(f) ==> f == w) && Waiting(w, max)
            && (!f.retired ==> f.incoming == Settle(w).incoming)
    decreases |inputs|
  {
    hide Drain, Receive, Find;
    if inputs == [] {
      EmptyFinds();
      EmptyReadIsNothing(Fresh, max, acc);
    } else {
      var n := |inputs| - 1;
      var before, x := inputs[..n], inputs[n];
      ReadsDoNotMatter(before, max, acc);
      var f := Feed(Fresh, before, max, acc);
      var c := Fresh.(incoming := Concat(before));
      var w := Drain(c, max, acc);
      FeedAlike(f, w, x, max, acc);
      DrainSplits(c, x, max, acc);
      assert Absorb(c, x) == Fresh.(incoming := Concat(inputs));
      DrainWaits(Absorb(c, x), max, acc);
      ReceiveWhenClosed(f, x, max, acc);
    }
  }

  lemma EmptyFinds()
    ensures Find("", TERMINATOR, 0) == 0
  {
  }

  lemma ReceiveWhenClosed(f: Conn, x: string, max: nat, acc: Acceptance)
    ensures !Open(f) ==> Receive(f, x, max, acc) == f
  {
  }

  // ----- what is answered --------------------------------------------------

  /** The answers to a byte stream, request by request: a request beyond the limit,
      complete or not, is refused; nothing follows an answer that closes. */
  ghost function Transcript(s: string, max: nat): seq<Response>
    decreases |s|
  {
    var end := Find(s, TERMINATOR, 0);
    if end == |s| then (if |s| > max then [TOO_LARGE] else [])
    else if end + 4 > max then [TOO_LARGE]
    else
      var r := Answer(Parse(s[..end + 4]));
      if r.close then [r] else [r] + Transcript(s[end + 4..], max)
  }

  ghost predicate AcceptsAll(acc: Acceptance) {
    forall n :: acc(n)
  }

  lemma {:induction false} DrainAnswers(c: Conn, max: nat, acc: Acceptance)
    requires Open(c) && AcceptsAll(acc)
    ensures Drain(c, max, acc).out == c.out + Transcript(c.incoming, max)
    ensures !Drain(c, max, acc).retired
    decreases |c.incoming|
  {
    hide Drain, Handle, Find, Parse, Answer;
    var end := Find(c.incoming, TERMINATOR, 0);
    DrainStep(c, max, acc, end);
    if end < |c.incoming| && end + 4 <= max {
      var r := Answer(Parse(c.incoming[..end + 4]));
      var d := Handle(c, end, acc);
      HandleAnswers(c, end, acc);
      if r.close {
        ClosedStops(d, max, 0, acc);
      } else {
        DrainAnswers(d, max, acc);
      }
    }
  }

  lemma HandleAnswers(c: Conn, end: nat, acc: Acceptance)
    requires Open(c) && end + 4 <= |c.incoming| && AcceptsAll(acc)
    ensures var r := Answer(Parse(c.incoming[..end + 4]));
            var d := Handle(c, end, acc);
            d.out == c.out + [r] && Open(d) == !r.close && !d.retired && d.incoming == c.incoming[end + 4..]
  {
    hide Parse, Answer;
  }

  /** The answers that are sent: those before the first that the output queue refuses. */
  lemma {:induction false} DrainSends(c: Conn, max: nat, acc: Acceptance) returns (n: nat)
    requires Open(c)
    ensures var t := Transcript(c.incoming, max);
            && n <= |t| && Drain(c, max, acc).out == c.out + t[..n]
            && (forall j :: |c.out| <= j < |c.out| + n ==> acc(j))
            && (Drain(c, max, acc).retired <==> n < |t|) && (n < |t| ==> !acc(|c.out| + n))
    decreases |c.incoming|
  {
    hide Drain, Handle, Find, Parse, Answer;
    var end := Find(c.incoming, TERMINATOR, 0);
    DrainStep(c, max, acc, end);
    if end < |c.incoming| && end + 4 <= max {
      var r := Answer(Parse(c.incoming[..end + 4]));
      var d := Handle(c, end, acc);
      HandleSends(c, end, acc);
      if !acc(|c.out|) {
        n := 0;
        ClosedStops(d, max, 0, acc);
      } else if r.close {
        n := 1;
        ClosedStops(d, max, 0, acc);
      } else {
        var m := DrainSends(d, max, acc);
        n := m + 1;
        SentMore(c.out, r, Transcript(d.incoming, max), m);
      }
    } else {
      n := if Transcript(c.incoming, max) != [] && acc(|c.out|) then 1 else 0;
    }
  }

  lemma SentMore(out: seq<Response>, r: Response, rest: seq<Response>, m: nat)
    requires m <= |rest|
    ensures out + [r] + rest[..m] == out + ([r] + rest)[..m + 1]
  {
  }

  lemma HandleSends(c: Conn, end: nat, acc: Acceptance)
    requires Open(c) && end + 4 <= |c.incoming|
    ensures var r := Answer(Parse(c.incoming[..end + 4]));
            var d := Handle(c, end, acc);
            && d.incoming == c.incoming[end + 4..]
            && d.out == c.out + (if acc(|c.out|) then [r] else [])
            && d.retired == !acc(|c.out|) && d.closing == (acc(|c.out|) && r.close)
  {
    hide Parse, Answer;
  }

  /** A refused answer is the end of the conversation: the client has been sent the answers
      before it, and is retired exactly if there is such an answer. */
  lemma RefusalIsFinal(inputs: seq<string>, max: nat, acc: Acceptance) returns (n: nat)
    requires forall i :: 0 <= i < |inputs| ==> |inputs[i]| <= READ_SIZE
    ensures var t := Transcript(Concat(inputs), max);
            var f := Feed(Fresh, inputs, max, acc);
            && n <= |t| && f.out == t[..n] && (forall i :: 0 <= i < n ==> acc(i))
            && (f.retired <==> n < |t|) && (n < |t| ==> !acc(n))
  {
    hide Drain, Feed, Transcript;
    ReadsDoNotMatter(inputs, max, acc);
    n := DrainSends(Fresh.(incoming := Concat(inputs)), max, acc);
    assert [] + Transcript(Concat(inputs), max)[..n] == Transcript(Concat(inputs), max)[..n];
  }

  /** With an output queue that takes everything, the client is sent exactly the
      transcript of its bytes, and can read it back unambiguously. */
  lemma ClientReadsTranscript(inputs: seq<string>, max: nat, acc: Acceptance)
    requires forall i :: 0 <= i < |inputs| ==> |inputs[i]| <= READ_SIZE
    requires AcceptsAll(acc)
    ensures var sent := Feed(Fresh, inputs, max, acc).out;
            && sent == Transcript(Concat(inputs), max)
            && Decode(Stream(sent), Heads(sent)) == Decoded(Messages(sent))
  {
    hide Drain, Feed, Decode, Transcript, Stream, Heads, Messages;
    ReadsDoNotMatter(inputs, max, acc);
    DrainAnswers(Fresh.(incoming := Concat(inputs)), max, acc);
    var sent := Transcript(Concat(inputs), max);
    assert [] + sent == sent;
    TranscriptWritable(Concat(inputs), max);
    StreamRoundTrip(sent);
  }

  lemma {:induction false} TranscriptWritable(s: string, max: nat)
    ensures forall i :: 0 <= i < |Transcript(s, max)| ==> Writable(Transcript(s, max)[i])
    decreases |s|
  {
    hide Find, Parse, Answer, Writable;
    AnswersAreWritable(Rejected(400));
    var end := Find(s, TERMINATOR, 0);
    FindEnd(s);
    if end < |s| && end + 4 <= max {
      AnswersAreWritable(Parse(s[..end + 4]));
      TranscriptWritable(s[end + 4..], max);
    }
  }

  lemma FindEnd(s: string)
    ensures Find(s, TERMINATOR, 0) < |s| ==> Find(s, TERMINATOR, 0) + 4 <= |s|
  {
  }

  /** The first answer marked close is the last one written. */
  ghost predicate OnlyLastCloses(c: Conn) {
    && (forall i :: 0 <= i < |c.out| - 1 ==> !c.out[i].close)
    && (c.closing <==> c.out != [] && c.out[|c.out| - 1].close)
  }

  lemma {:induction false} DrainClosesLast(c: Conn, max: nat, acc: Acceptance)
    requires OnlyLastCloses(c)
    ensures OnlyLastCloses(Drain(c, max, acc))
    decreases |c.incoming|
  {
    hide Drain, Find, Parse, Answer;
    if Open(c) {
      var end := Find(c.incoming, TERMINATOR, 0);
      DrainStep(c, max, acc, end);
      if end < |c.incoming| && end + 4 <= max {
        DrainClosesLast(Handle(c, end, acc), max, acc);
      }
    } else {
      ClosedStops(c, max, 0, acc);
    }
  }

  lemma CloseIsLast(inputs: seq<string>, max: nat, acc: Acceptance)
    requires forall i :: 0 <= i < |inputs| ==> |inputs[i]| <= READ_SIZE
    ensures OnlyLastCloses(Feed(Fresh, inputs, max, acc))
  {
    hide Drain, Feed;
    ReadsDoNotMatter(inputs, max, acc);
    DrainClosesLast(Fresh.(incoming := Concat(inputs)), max, acc);
  }
}
