/** The per-client half of the HTTP server as an object: receive edits the buffer,
    cuts requests off its front and queues answers until told to stop. */
module HttpServer {
  import opened HttpText
  import opened HttpParse
  import opened HttpParser
  import opened HttpResponse
  import opened HttpStream

  class HttpPeer {
    const maxHeaderBytes: nat

    var incoming: string
    var closing: bool
    var retire: bool
    var answered: nat

    // what has been queued, as answers and as text
    ghost var out: seq<Response>
    ghost var wire: string

    ghost function View(): Conn
      reads this
    {
      Conn(incoming, closing, retire, out)
    }

    ghost predicate Valid()
      reads this
    {
      answered == |out| && wire == Stream(out)
    }

    constructor (maxHeaderBytes: nat)
      ensures Valid() && View() == Fresh && this.maxHeaderBytes == maxHeaderBytes
    {
      this.maxHeaderBytes := maxHeaderBytes;
      incoming, closing, retire, answered := "", false, false, 0;
      out, wire := [], "";
    }

    /** The output queue takes the whole text or nothing; a refusal retires the
        client. */
    method SendResponse(r: Response, acc: Acceptance) returns (ok: bool)
      requires Valid()
      modifies this`closing, this`retire, this`answered, this`out, this`wire
      ensures Valid() && View() == Respond(old(View()), r, acc)
      ensures ok == acc(old(answered))
    {
      hide Render;
      var text := BuildResponse(r);
      if !acc(answered) {
        retire := true;
        return false;
      }
      StreamSnoc(out, r);
      wire := wire + text;
      out := out + [r];
      answered := answered + 1;
      if r.close {
        closing := true;
      }
      return true;
    }

    method HandleRequest(raw: string, acc: Acceptance)
      requires Valid()
      modifies this`closing, this`retire, this`answered, this`out, this`wire
      ensures Valid() && View() == Respond(old(View()), Answer(Parse(raw)), acc)
    {
      hide Parse, Respond;
      var request := ParseRequest(raw);
      var _ := SendResponse(Answer(request), acc);
    }

    method ReceiveData(data: string, acc: Acceptance)
      requires Valid()
      modifies this
      ensures Valid() && View() == Receive(old(View()), data, maxHeaderBytes, acc)
    {
      hide Respond, Answer, Parse, Find, HttpStream.Loop;
      if retire || closing || data == "" {
        return;
      }
      incoming := incoming + data;
      ghost var start := View();
      var processed := 0;
      var stop := false;
      while !stop && !retire && !closing
        invariant Valid()
        invariant if stop then Loop(start, maxHeaderBytes, 0, acc) == View()
                  else Loop(start, maxHeaderBytes, 0, acc) == Loop(View(), maxHeaderBytes, processed, acc)
        decreases !stop, |incoming|
      {
        ghost var c := View();
        var end := Find(incoming, TERMINATOR, 0);
        LoopTurn(c, maxHeaderBytes, processed, acc, end);
        if end == |incoming| {
          if |incoming| > maxHeaderBytes {
            var _ := SendResponse(TOO_LARGE, acc);
          }
          stop := true;
        } else if end + 4 > maxHeaderBytes {
          var _ := SendResponse(TOO_LARGE, acc);
          stop := true;
        } else if processed >= MAX_PIPELINED {
          var _ := SendResponse(TOO_MANY, acc);
          stop := true;
        } else {
          var request := incoming[..end + 4];
          incoming := incoming[end + 4..];
          HandleRequest(request, acc);
          processed := processed + 1;
        }
      }
      if !stop {
        LoopOver(View(), maxHeaderBytes, processed, acc);
      }
      if closing {
        incoming := "";
      }
      if !retire && !closing && |incoming| > maxHeaderBytes {
        var _ := SendResponse(TOO_LARGE, acc);
      }
    }
  }

  lemma {:induction false} StreamSnoc(rs: seq<Response>, r: Response)
    ensures Stream(rs + [r]) == Stream(rs) + Render(r)
  {
    hide Render;
    if rs == [] {
      assert rs + [r] == [r];
      assert Stream([r]) == Render(r) + Stream([]);
    } else {
      StreamSnoc(rs[1..], r);
      assert (rs + [r])[1..] == rs[1..] + [r];
    }
  }

  /** The four ways one turn of the loop can go. */
  lemma LoopTurn(c: Conn, max: nat, processed: nat, acc: Acceptance, end: nat)
    requires Open(c) && end == Find(c.incoming, TERMINATOR, 0)
    ensures end < |c.incoming| ==> end + 4 <= |c.incoming|
    ensures Loop(c, max, processed, acc) ==
              if end == |c.incoming| then (if |c.incoming| > max then Respond(c, TOO_LARGE, acc) else c)
              else if end + 4 > max then Respond(c, TOO_LARGE, acc)
              else if processed >= MAX_PIPELINED then Respond(c, TOO_MANY, acc)
              else Loop(Handle(c, end, acc), max, processed + 1, acc)
  {
    hide Respond, Handle;
  }

  lemma LoopOver(c: Conn, max: nat, processed: nat, acc: Acceptance)
    requires !Open(c)
    ensures Loop(c, max, processed, acc) == c
  {
  }
}
