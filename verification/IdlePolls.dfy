/** Polls whose callbacks do nothing: they enter exactly the callbacks the hooks of the
    ready sockets call for, in the order of the snapshot. */
module IdlePolls {
  import opened SocketTraces
  import opened SocketTurns
  import opened Wrappers

  ghost predicate NoUser(a: seq<Event>, b: seq<Event>) {
    a <= b && forall i :: |a| <= i < |b| ==> !ByUser(b[i])
  }

  datatype Call = Call(token: nat, what: Callback)

  /** The callbacks entered, in order. */
  function Entered(trace: seq<Event>): seq<Call> {
    if trace == [] then []
    else
      var before := Entered(trace[..|trace| - 1]);
      match trace[|trace| - 1]
      case Fired(t, _, what) => before + [Call(t, what)]
      case _ => before
  }

  function CallsOf(t: nat, whats: seq<Callback>): seq<Call> {
    seq(|whats|, i requires 0 <= i < |whats| => Call(t, whats[i]))
  }

  /** From a to b these callbacks of t were entered, the socket was closed or not, and
      nothing else has changed. */
  ghost predicate Ran(a: seq<Event>, b: seq<Event>, t: nat, s: SocketRef, whats: seq<Callback>, closed: bool) {
    && Entered(b) == Entered(a) + CallsOf(t, whats)
    && (forall x :: FdOf(b, x) == if x == s && closed then None else FdOf(a, x))
    && (forall u :: Survives(b, u) <==> Survives(a, u))
  }

  lemma RanMark(a: seq<Event>, x: Event, t: nat, s: SocketRef)
    requires x.Used? || x.Counted? || x.Visited? || x.Flushed?
    ensures Ran(a, a + [x], t, s, [], false)
  {
    assert (a + [x])[..|a|] == a;
    forall y
      ensures FdOf(a + [x], y) == FdOf(a, y)
    {
      FdOfSnoc(a, x, y);
    }
  }

  lemma RanFired(a: seq<Event>, t: nat, p: nat, s: SocketRef, what: Callback)
    ensures Ran(a, a + [Fired(t, p, what)], t, s, [what], false)
  {
    var x := Fired(t, p, what);
    assert (a + [x])[..|a|] == a;
    forall y
      ensures FdOf(a + [x], y) == FdOf(a, y)
    {
      FdOfSnoc(a, x, y);
    }
  }

  lemma RanClosed(a: seq<Event>, t: nat, p: nat, s: SocketRef, open: bool)
    ensures Ran(a, a + [Closed(t, p, s, open)], t, s, [], true)
  {
    var x := Closed(t, p, s, open);
    assert (a + [x])[..|a|] == a;
    forall y
      ensures FdOf(a + [x], y) == if y == s then None else FdOf(a, y)
    {
      FdOfSnoc(a, x, y);
    }
  }

  lemma RanNothing(a: seq<Event>, t: nat, s: SocketRef)
    ensures Ran(a, a, t, s, [], false)
  {
    assert Entered(a) + CallsOf(t, []) == Entered(a);
  }

  lemma RanThen(a: seq<Event>, m: seq<Event>, b: seq<Event>, t: nat, s: SocketRef, c1: seq<Callback>, x: bool,
                c2: seq<Callback>, y: bool)
    requires Ran(a, m, t, s, c1, x) && Ran(m, b, t, s, c2, y)
    ensures Ran(a, b, t, s, c1 + c2, x || y)
  {
    hide Entered, FdOf, Survives;
    assert CallsOf(t, c1 + c2) == CallsOf(t, c1) + CallsOf(t, c2);
  }

  lemma OperationsFollow(a: seq<Event>, b: seq<Event>)
    requires |b| > |a| + 1 && forall i :: |a| < i < |b| ==> ByUser(b[i])
    ensures !NoUser(a, b)
  {
    assert ByUser(b[|a| + 1]);
  }

  lemma IdleCall(a: seq<Event>, b: seq<Event>, t: nat, p: nat, s: SocketRef, what: Callback)
    requires Calls(a, b, t, p, what) && NoUser(a, b)
    ensures Ran(a, b, t, s, [what], false)
  {
    if |b| > |a| + 1 {
      OperationsFollow(a, b);
    }
    assert b == a + [Fired(t, p, what)];
    RanFired(a, t, p, s, what);
  }

  lemma NoUserPart(a: seq<Event>, m: seq<Event>, b: seq<Event>)
    requires NoUser(a, b) && a <= m <= b
    ensures NoUser(a, m) && NoUser(m, b)
  {
    assert forall i :: |a| <= i < |m| ==> m[i] == b[i];
  }

  lemma IdleBoth(a: seq<Event>, b: seq<Event>, t: nat, p: nat, s: SocketRef, own: Callback, fan: Callback)
    requires Both(a, b, t, p, own, fan) && NoUser(a, b) && Survives(a, t)
    ensures Ran(a, b, t, s, [own, fan], false)
  {
    hide Entered, FdOf, Survives, NoUser;
    var m :| Calls(a, m, t, p, own) && if Survives(m, t) then Calls(m, b, t, p, fan) else b == m;
    NoUserPart(a, m, b);
    IdleCall(a, m, t, p, s, own);
    IdleCall(m, b, t, p, s, fan);
    RanThen(a, m, b, t, s, [own], false, [fan], false);
    assert [own] + [fan] == [own, fan];
  }

  lemma IdleClose(a: seq<Event>, b: seq<Event>, t: nat, p: nat, s: SocketRef)
    requires Closes(a, b, t, p, s) && NoUser(a, b) && FdOf(a, s).Some?
    ensures Ran(a, b, t, s, [OnClose], true)
  {
    hide Entered, FdOf, Survives, NoUser, Ran, Calls;
    var u := a + [Used(t, p)];
    var c := u + [Closed(t, p, s, true)];
    assert c == a + [Used(t, p), Closed(t, p, s, true)];
    assert c <= b by { CallsExtends(c, b, t, p, OnClose); }
    NoUserPart(a, c, b);
    RanMark(a, Used(t, p), t, s);
    RanClosed(u, t, p, s, true);
    IdleCall(c, b, t, p, s, OnClose);
    RanThen(a, u, c, t, s, [], false, [], true);
    RanThen(a, c, b, t, s, [] + [], true, [OnClose], false);
    assert [] + [] + [OnClose] == [OnClose];
  }

  lemma CallsExtends(a: seq<Event>, b: seq<Event>, t: nat, p: nat, what: Callback)
    requires Calls(a, b, t, p, what)
    ensures a <= b
  {
  }

  lemma IdleEnd(a: seq<Event>, b: seq<Event>, t: nat, p: nat, s: SocketRef)
    requires EndsStream(a, b, t, p, s) && NoUser(a, b) && FdOf(a, s).Some? && Survives(a, t)
    ensures Ran(a, b, t, s, [OnClose, OnSocketClose], true)
  {
    hide Entered, FdOf, Survives, NoUser, Closes, Calls;
    var m :| Closes(a, m, t, p, s) && if Survives(m, t) then Calls(m, b, t, p, OnSocketClose) else b == m;
    ClosesEvent(a, m, t, p, s, Visited(0, 0, 0, 0), Kept);
    if Survives(m, t) {
      CallsExtends(m, b, t, p, OnSocketClose);
    }
    NoUserPart(a, m, b);
    IdleClose(a, m, t, p, s);
    IdleCall(m, b, t, p, s, OnSocketClose);
    RanThen(a, m, b, t, s, [OnClose], true, [OnSocketClose], false);
    assert [OnClose] + [OnSocketClose] == [OnClose, OnSocketClose];
  }

  /** The callbacks of an error report, with or without a close. */
  function ErrorCalls(closes: bool): seq<Callback> {
    [OnError, OnSocketError] + if closes then [OnClose] else []
  }

  lemma IdleError(a: seq<Event>, b: seq<Event>, t: nat, p: nat, s: SocketRef, close: Option<Need>)
    requires Errs(a, b, t, p, s, close) && NoUser(a, b) && FdOf(a, s).Some? && Survives(a, t)
    requires close.Some? ==> close.value == Open || close.value == Under(FdOf(a, s).value)
    ensures Ran(a, b, t, s, ErrorCalls(close.Some?), close.Some?)
  {
    hide Entered, FdOf, Survives, NoUser, Closes, Calls, Both, Has, Outlives, Handled;
    var u := a + [Used(t, p)];
    var m :| Both(u, m, t, p, OnError, OnSocketError) && ClosesAfter(m, b, t, p, s, close);
    var _ := BothTable(u, m, t, p, OnError, OnSocketError, s);
    ClosesAfterEvent(m, b, t, p, s, close, Visited(0, 0, 0, 0), Kept);
    NoUserPart(a, m, b);
    NoUserPart(a, u, m);
    RanMark(a, Used(t, p), t, s);
    IdleBoth(u, m, t, p, s, OnError, OnSocketError);
    RanThen(a, u, m, t, s, [], false, [OnError, OnSocketError], false);
    assert [] + [OnError, OnSocketError] == [OnError, OnSocketError];
    if close.Some? {
      var v := m + [Used(t, p)];
      ClosesEvent(v, b, t, p, s, Visited(0, 0, 0, 0), Kept);
      NoUserPart(m, v, b);
      RanMark(m, Used(t, p), t, s);
      IdleClose(v, b, t, p, s);
      RanThen(m, v, b, t, s, [], false, [OnClose], true);
      assert [] + [OnClose] == [OnClose];
      RanThen(a, m, b, t, s, [OnError, OnSocketError], false, [OnClose], true);
    }
  }

  lemma RanAfterMark(a: seq<Event>, x: Event, b: seq<Event>, t: nat, s: SocketRef, whats: seq<Callback>, closed: bool)
    requires Ran(a + [x], b, t, s, whats, closed) && (x.Used? || x.Counted? || x.Visited? || x.Flushed?)
    ensures Ran(a, b, t, s, whats, closed)
  {
    hide Ran;
    RanMark(a, x, t, s);
    RanThen(a, a + [x], b, t, s, [], false, whats, closed);
    assert [] + whats == whats;
  }

  predicate ReadCloses(h: Hooks) {
    h.readReady && (h.received == 0 || (h.received < 0 && !h.wouldBlock && h.errorTerminal))
  }

  function ReadCalls(h: Hooks): seq<Callback> {
    if h.readReady && h.received > 0 then [OnData, OnSocketData]
    else if h.readReady && h.received == 0 then [OnClose, OnSocketClose]
    else if (if h.readReady then !h.wouldBlock else h.flags.err || h.flags.nval) then ErrorCalls(ReadCloses(h))
    else []
  }

  lemma IdleRead(a: seq<Event>, b: seq<Event>, w: Watch, p: nat, s: SocketRef, h: Hooks)
    requires ReadsStream(a, b, w, p, s, h) && NoUser(a, b) && FdOf(a, s) == Some(w.fd) && Survives(a, w.token)
    ensures Ran(a, b, w.token, s, ReadCalls(h), ReadCloses(h))
  {
    hide Errs, Both, EndsStream, FdOf, Survives, Ran, ErrorCalls;
    var t := w.token;
    var u := a + [Used(t, p)];
    var c := u + [Counted(t, p)];
    OpenAfterMarks(a, t, p, s);
    OpenAfterMarks(u, t, p, s);
    ReadExtends(a, b, w, p, s, h);
    if ReadDuty(h, w.fd) == Nothing {
      RanMark(a, Used(t, p), t, s);
    } else {
      NoUserPart(a, c, b);
      if h.readReady && h.received > 0 {
        IdleBoth(c, b, t, p, s, OnData, OnSocketData);
      } else if h.readReady && h.received == 0 {
        IdleEnd(c, b, t, p, s);
      } else {
        IdleError(c, b, t, p, s, if h.readReady && h.errorTerminal then Some(Under(w.fd)) else None);
      }
      RanAfterMark(u, Counted(t, p), b, t, s, ReadCalls(h), ReadCloses(h));
      RanAfterMark(a, Used(t, p), b, t, s, ReadCalls(h), ReadCloses(h));
    }
  }

  lemma ReadExtends(a: seq<Event>, b: seq<Event>, w: Watch, p: nat, s: SocketRef, h: Hooks)
    requires ReadsStream(a, b, w, p, s, h) && FdOf(a, s).Some?
    ensures a + [Used(w.token, p)] <= b
    ensures ReadDuty(h, w.fd) != Nothing ==> a + [Used(w.token, p)] + [Counted(w.token, p)] <= b
  {
    hide Errs, Both, EndsStream, FdOf, Has, Outlives, Handled;
    var t := w.token;
    var u := a + [Used(t, p)];
    var c := u + [Counted(t, p)];
    OpenAfterMarks(a, t, p, s);
    OpenAfterMarks(u, t, p, s);
    if h.readReady && h.received > 0 {
      PairLaw(c, b, t, p, s, OnData, OnSocketData);
    } else if h.readReady && h.received == 0 {
      EndLaw(c, b, t, p, s);
    } else if ReadFails(h) {
      ErrorLaw(c, b, t, p, s, if h.readReady && h.errorTerminal then Some(Under(w.fd)) else None);
    }
  }

  predicate FlushCloses(h: Hooks) {
    h.queueReady && h.flushError && h.errorTerminal
  }

  function FlushCalls(h: Hooks): seq<Callback> {
    if !h.queueReady then []
    else if h.flushError then ErrorCalls(h.errorTerminal)
    else if h.drained then [OnDrain, OnSocketDrain]
    else []
  }

  lemma IdleFlush(a: seq<Event>, b: seq<Event>, w: Watch, p: nat, s: SocketRef, h: Hooks)
    requires FlushesStream(a, b, w, p, s, h) && NoUser(a, b) && FdOf(a, s) == Some(w.fd) && Survives(a, w.token)
    ensures Ran(a, b, w.token, s, FlushCalls(h), FlushCloses(h))
  {
    hide Errs, Both, FdOf, Survives, Ran, ErrorCalls, Fulfils;
    var t := w.token;
    var u := a + [Used(t, p)];
    OpenAfterMarks(a, t, p, s);
    RanMark(a, Used(t, p), t, s);
    if h.queueReady {
      var f := u + [Flushed(t, p, w.fd, w.fd)];
      assert f == a + [Used(t, p), Flushed(t, p, w.fd, w.fd)];
      MarkKeeps(u, Flushed(t, p, w.fd, w.fd), t, s);
      FlushedRuns(f, b, w, p, s, h);
      RanAfterMark(u, Flushed(t, p, w.fd, w.fd), b, t, s, FlushCalls(h), FlushCloses(h));
      RanAfterMark(a, Used(t, p), b, t, s, FlushCalls(h), FlushCloses(h));
    }
  }

  /** What follows a flush, from the flush on. */
  lemma FlushedRuns(f: seq<Event>, b: seq<Event>, w: Watch, p: nat, s: SocketRef, h: Hooks)
    requires var c := if FlushCounts(h) then f + [Counted(w.token, p)] else f;
             if h.flushError then Errs(c, b, w.token, p, s, if h.errorTerminal then Some(Under(w.fd)) else None)
             else if h.drained then Both(c, b, w.token, p, OnDrain, OnSocketDrain)
             else b == c
    requires forall i :: |f| <= i < |b| ==> !ByUser(b[i])
    requires FdOf(f, s) == Some(w.fd) && Survives(f, w.token) && h.queueReady
    ensures Ran(f, b, w.token, s, FlushCalls(h), FlushCloses(h))
  {
    hide Errs, Both, FdOf, Survives, Ran, ErrorCalls, Has, Outlives, Handled;
    var t := w.token;
    var c := if FlushCounts(h) then f + [Counted(t, p)] else f;
    OpenAfterMarks(f, t, p, s);
    if h.flushError {
      ErrorLaw(c, b, t, p, s, if h.errorTerminal then Some(Under(w.fd)) else None);
      NoUserPart(f, c, b);
      IdleError(c, b, t, p, s, if h.errorTerminal then Some(Under(w.fd)) else None);
    } else if h.drained {
      PairLaw(c, b, t, p, s, OnDrain, OnSocketDrain);
      NoUserPart(f, c, b);
      IdleBoth(c, b, t, p, s, OnDrain, OnSocketDrain);
    } else {
      RanNothing(c, t, s);
    }
    if FlushCounts(h) {
      RanAfterMark(f, Counted(t, p), b, t, s, FlushCalls(h), FlushCloses(h));
    }
  }

  function VerdictCalls(h: Hooks): seq<Callback> {
    if h.step < 0 then [OnError, OnSocketError, OnClose]
    else if h.step == 3 then [OnClose, OnSocketClose]
    else if h.step == 2 then [OnConnect, OnSocketConnect]
    else []
  }

  lemma IdleVerdict(a: seq<Event>, b: seq<Event>, w: Watch, p: nat, s: SocketRef, h: Hooks)
    requires FollowsVerdict(a, b, w, p, s, h) && NoUser(a, b) && FdOf(a, s) == Some(w.fd) && Survives(a, w.token)
    requires Verdicts(h)
    ensures Ran(a, b, w.token, s, VerdictCalls(h), h.step < 0 || h.step == 3)
  {
    hide Errs, EndsStream, FdOf, Survives, Ran, Has, Outlives, Handled, Connects;
    var t := w.token;
    var c := a + [Counted(t, p)];
    OpenAfterMarks(a, t, p, s);
    if h.step == 2 {
      ConnectLaw(c, b, w, p, s);
      NoUserPart(a, c, b);
      IdleConnect(c, b, w, p, s);
    } else if h.step < 0 {
      ErrorLaw(c, b, t, p, s, Some(Open));
      NoUserPart(a, c, b);
      IdleError(c, b, t, p, s, Some(Open));
      assert ErrorCalls(true) == [OnError, OnSocketError, OnClose];
    } else if h.step == 3 {
      EndLaw(c, b, t, p, s);
      NoUserPart(a, c, b);
      IdleEnd(c, b, t, p, s);
    } else {
      RanNothing(c, t, s);
    }
    RanAfterMark(a, Counted(t, p), b, t, s, VerdictCalls(h), h.step < 0 || h.step == 3);
  }

  lemma IdleConnect(a: seq<Event>, b: seq<Event>, w: Watch, p: nat, s: SocketRef)
    requires Connects(a, b, w, p, s) && NoUser(a, b) && FdOf(a, s) == Some(w.fd) && Survives(a, w.token)
    ensures Ran(a, b, w.token, s, [OnConnect, OnSocketConnect], false)
  {
    hide Entered, FdOf, Survives, NoUser, Calls;
    var t := w.token;
    var m :| Calls(a, m, t, p, OnConnect) &&
      if !Survives(m, t) then b == m
      else if FdOf(m, s) != Some(w.fd) then b == m + [Used(t, p)]
      else Calls(m + [Used(t, p)], b, t, p, OnSocketConnect);
    var u := m + [Used(t, p)];
    CallsExtends(a, m, t, p, OnConnect);
    if Calls(u, b, t, p, OnSocketConnect) {
      CallsExtends(u, b, t, p, OnSocketConnect);
    }
    NoUserPart(a, m, b);
    IdleCall(a, m, t, p, s, OnConnect);
    NoUserPart(a, u, b);
    IdleCall(u, b, t, p, s, OnSocketConnect);
    RanAfterMark(m, Used(t, p), b, t, s, [OnSocketConnect], false);
    RanThen(a, m, b, t, s, [OnConnect], false, [OnSocketConnect], false);
    assert [OnConnect] + [OnSocketConnect] == [OnConnect, OnSocketConnect];
  }

  function ListenerCalls(h: Hooks): seq<Callback> {
    if h.flags.input then [OnSocketListen]
    else if h.flags.err || h.flags.nval || h.flags.hup then [OnError, OnSocketError]
    else []
  }

  lemma IdleListener(a: seq<Event>, b: seq<Event>, w: Watch, p: nat, s: SocketRef, h: Hooks)
    requires Listens(a, b, w, p, s, h) && NoUser(a, b) && FdOf(a, s) == Some(w.fd) && Survives(a, w.token)
    ensures Ran(a, b, w.token, s, ListenerCalls(h), false)
  {
    hide Errs, Calls, FdOf, Survives, Ran, Has, Outlives, Handled;
    var t := w.token;
    var c := a + [Counted(t, p)];
    OpenAfterMarks(a, t, p, s);
    if ListenerDuty(h) == Nothing {
      RanNothing(a, t, s);
    } else {
      if h.flags.input {
        CallsExtends(c, b, t, p, OnSocketListen);
        NoUserPart(a, c, b);
        IdleCall(c, b, t, p, s, OnSocketListen);
      } else {
        ErrorLaw(c, b, t, p, s, None);
        NoUserPart(a, c, b);
        IdleError(c, b, t, p, s, None);
        assert ErrorCalls(false) == [OnError, OnSocketError];
      }
      RanAfterMark(a, Counted(t, p), b, t, s, ListenerCalls(h), false);
    }
  }

  function DatagramCalls(h: Hooks): seq<Callback> {
    if h.flags.input && h.received >= 0 then [OnDatagram, OnSocketDatagram]
    else if (if h.flags.input then !h.wouldBlock else h.flags.err || h.flags.nval) then [OnError, OnSocketError]
    else []
  }

  lemma IdleDatagram(a: seq<Event>, b: seq<Event>, w: Watch, p: nat, s: SocketRef, h: Hooks)
    requires TakesDatagram(a, b, w, p, s, h) && NoUser(a, b) && FdOf(a, s) == Some(w.fd) && Survives(a, w.token)
    ensures Ran(a, b, w.token, s, DatagramCalls(h), false)
  {
    hide Errs, Both, FdOf, Survives, Ran, Has, Outlives, Handled;
    var t := w.token;
    var u := a + [Used(t, p)];
    var c := u + [Counted(t, p)];
    OpenAfterMarks(a, t, p, s);
    OpenAfterMarks(u, t, p, s);
    if DatagramDuty(h) == Nothing {
      RanMark(a, Used(t, p), t, s);
    } else {
      if h.flags.input && h.received >= 0 {
        PairLaw(c, b, t, p, s, OnDatagram, OnSocketDatagram);
        NoUserPart(a, c, b);
        IdleBoth(c, b, t, p, s, OnDatagram, OnSocketDatagram);
      } else {
        ErrorLaw(c, b, t, p, s, None);
        NoUserPart(a, c, b);
        IdleError(c, b, t, p, s, None);
        assert ErrorCalls(false) == [OnError, OnSocketError];
      }
      RanAfterMark(u, Counted(t, p), b, t, s, DatagramCalls(h), false);
      RanAfterMark(a, Used(t, p), b, t, s, DatagramCalls(h), false);
    }
  }

  /** The callbacks a turn enters if none of them does anything: the whole table. */
  function TurnCalls(s: SocketRef, h: Hooks): seq<Callback> {
    if !Ready(h, s) then []
    else if s.Udp? then DatagramCalls(h)
    else if h.listener then ListenerCalls(h)
    else if Verdicts(h) then VerdictCalls(h)
    else ReadCalls(h) + if ReadCloses(h) then [] else FlushCalls(h)
  }

  predicate TurnCloses(s: SocketRef, h: Hooks) {
    Ready(h, s) && s.Tcp? && !h.listener &&
    if Verdicts(h) then h.step < 0 || h.step == 3 else ReadCloses(h) || FlushCloses(h)
  }

  lemma {:induction false} RanLooks(a: seq<Event>, u: seq<Event>, t: nat, s: SocketRef)
    requires OnlyLookedAt(a, u)
    ensures Ran(a, u, t, s, [], false)
    decreases |u|
  {
    hide Ran;
    if a == u {
      RanNothing(a, t, s);
    } else {
      var n := |u| - 1;
      RanLooks(a, u[..n], t, s);
      RanMark(u[..n], u[n], t, s);
      assert u == u[..n] + [u[n]];
      RanThen(a, u[..n], u, t, s, [], false, [], false);
      var none: seq<Callback> := [];
      assert none + none == none;
    }
  }

  /** A closed socket has nothing to flush. */
  lemma ClosedFlushes(a: seq<Event>, b: seq<Event>, w: Watch, p: nat, s: SocketRef, h: Hooks)
    requires FlushesStream(a, b, w, p, s, h) && FdOf(a, s) == None
    ensures Ran(a, b, w.token, s, [], true)
  {
    hide FdOf, Survives;
    RanNothing(a, w.token, s);
    RanMark(a, Used(w.token, p), w.token, s);
  }

  lemma IdleStream(a: seq<Event>, b: seq<Event>, w: Watch, p: nat, s: SocketRef, h: Hooks)
    requires MovesData(a, b, w, p, s, h) && NoUser(a, b) && FdOf(a, s) == Some(w.fd) && Survives(a, w.token)
    ensures Ran(a, b, w.token, s, ReadCalls(h) + (if ReadCloses(h) then [] else FlushCalls(h)),
                ReadCloses(h) || FlushCloses(h))
  {
    hide FdOf, Survives, Ran, ReadsStream, FlushesStream, ReadCalls, FlushCalls, ReadCloses, FlushCloses, Has,
         Outlives,
         Handled;
    var t := w.token;
    var m :| ReadsStream(a, m, w, p, s, h) && FlushesStream(m, b, w, p, s, h);
    ReadExtends(a, m, w, p, s, h);
    FlushOutcome(m, b, w, p, s, h);
    NoUserPart(a, m, b);
    IdleRead(a, m, w, p, s, h);
    RanLeaves(a, m, t, s, ReadCalls(h), ReadCloses(h));
    if ReadCloses(h) {
      ClosedFlushes(m, b, w, p, s, h);
      RanThen(a, m, b, t, s, ReadCalls(h), true, [], true);
    } else {
      IdleFlush(m, b, w, p, s, h);
      RanThen(a, m, b, t, s, ReadCalls(h), false, FlushCalls(h), FlushCloses(h));
    }
  }

  lemma RanLeaves(a: seq<Event>, b: seq<Event>, t: nat, s: SocketRef, whats: seq<Callback>, closed: bool)
    requires Ran(a, b, t, s, whats, closed)
    ensures FdOf(b, s) == (if closed then None else FdOf(a, s)) && (Survives(b, t) <==> Survives(a, t))
  {
    hide Entered, FdOf, Survives;
  }

  /** A ready socket's turn among callbacks that do nothing. */
  lemma IdleTurn(a: seq<Event>, b: seq<Event>, w: Watch, p: nat, s: SocketRef, h: Hooks)
    requires Turn(a, b, w, p, s, h) && NoUser(a, b) && FdOf(a, s) == Some(w.fd) && Survives(a, w.token)
    ensures Ran(a, b, w.token, s, TurnCalls(s, h), TurnCloses(s, h))
  {
    hide FdOf, Survives, Ran, Attends, Has, Outlives, Handled, VerdictAnswered, ReadAnswered, FlushAnswered,
         ListenerAnswered, DatagramAnswered, StreamAnswered, OnlyLookedAt, TurnCalls, TurnCloses;
    var t := w.token;
    var u :| OnlyLookedAt(a, u) &&
      if Ready(h, s) && Meets(a, t, s, Under(w.fd)) then Attends(u + [VisitOf(w, p)], b, w, p, s, h) else b == u;
    LooksExtend(a, u);
    RanLooks(a, u, t, s);
    RanLeaves(a, u, t, s, [], false);
    if Ready(h, s) {
      var v := u + [VisitOf(w, p)];
      MarkKeeps(u, VisitOf(w, p), t, s);
      AttendExtends(v, b, w, p, s, h);
      NoUserPart(a, v, b);
      IdleAttend(v, b, w, p, s, h);
      RanAfterMark(u, VisitOf(w, p), b, t, s, TurnCalls(s, h), TurnCloses(s, h));
      RanThen(a, u, b, t, s, [], false, TurnCalls(s, h), TurnCloses(s, h));
      assert [] + TurnCalls(s, h) == TurnCalls(s, h);
    } else {
      assert TurnCalls(s, h) == [] && !TurnCloses(s, h) by { UnreadyIsIdle(s, h); }
    }
  }

  lemma UnreadyIsIdle(s: SocketRef, h: Hooks)
    requires !Ready(h, s)
    ensures TurnCalls(s, h) == [] && !TurnCloses(s, h)
  {
  }

  lemma LooksExtend(a: seq<Event>, u: seq<Event>)
    requires OnlyLookedAt(a, u)
    ensures a <= u
  {
  }

  lemma AttendExtends(v: seq<Event>, b: seq<Event>, w: Watch, p: nat, s: SocketRef, h: Hooks)
    requires Attends(v, b, w, p, s, h) && FdOf(v, s).Some?
    ensures v <= b && (s.Tcp? && !h.listener ==> v + [Used(w.token, p)] <= b)
  {
    hide FdOf, Survives, Has, Outlives, Handled, TakesDatagram, Listens, FollowsVerdict, ReadsStream, FlushesStream;
    var t := w.token;
    if s.Udp? {
      DatagramLaw(v, b, w, p, s, h);
    } else if h.listener {
      ListenerLaw(v, b, w, p, s, h);
    } else {
      var x := v + [Used(t, p)];
      OpenAfterMarks(v, t, p, s);
      if Verdicts(h) {
        VerdictLaw(x, b, w, p, s, h);
      } else {
        var m :| ReadsStream(x, m, w, p, s, h) && FlushesStream(m, b, w, p, s, h);
        ReadExtends(x, m, w, p, s, h);
        FlushOutcome(m, b, w, p, s, h);
      }
    }
  }

  lemma IdleAttend(v: seq<Event>, b: seq<Event>, w: Watch, p: nat, s: SocketRef, h: Hooks)
    requires Attends(v, b, w, p, s, h) && NoUser(v, b) && FdOf(v, s) == Some(w.fd) && Survives(v, w.token)
    requires Ready(h, s)
    ensures Ran(v, b, w.token, s, TurnCalls(s, h), TurnCloses(s, h))
  {
    hide FdOf, Survives, Ran, TakesDatagram, Listens, FollowsVerdict, MovesData, ListenerCalls, DatagramCalls,
         VerdictCalls, ReadCalls, FlushCalls, ReadCloses, FlushCloses, Ready;
    var t := w.token;
    AttendExtends(v, b, w, p, s, h);
    if s.Udp? {
      IdleDatagram(v, b, w, p, s, h);
    } else if h.listener {
      IdleListener(v, b, w, p, s, h);
    } else {
      var x := v + [Used(t, p)];
      OpenAfterMarks(v, t, p, s);
      NoUserPart(v, x, b);
      if Verdicts(h) {
        IdleVerdict(x, b, w, p, s, h);
      } else {
        IdleStream(x, b, w, p, s, h);
      }
      RanAfterMark(v, Used(t, p), b, t, s, TurnCalls(s, h), TurnCloses(s, h));
    }
  }

  /** The callbacks of the first n turns, in order. */
  function PollCalls(ws: seq<Watch>, socks: seq<SocketRef>, hooks: nat -> Hooks, n: nat): seq<Call>
    requires n <= |ws| == |socks|
  {
    if n == 0 then []
    else PollCalls(ws, socks, hooks, n - 1) + CallsOf(ws[n - 1].token, TurnCalls(socks[n - 1], hooks(n - 1)))
  }

  /** A poll whose callbacks do nothing enters exactly the callbacks of the table, socket by
      socket in the order of the snapshot. */
  lemma IdlePoll(cuts: seq<seq<Event>>, ws: seq<Watch>, p: nat, socks: seq<SocketRef>, hooks: nat -> Hooks)
    requires Turns(cuts, ws, p, socks, hooks) && Ascending(cuts) && NoUser(cuts[0], cuts[|ws|])
    requires forall k :: 0 <= k < |ws| ==> FdOf(cuts[0], socks[k]) == Some(ws[k].fd) && Survives(cuts[0], ws[k].token)
    requires forall i, j :: 0 <= i < j < |ws| ==> socks[i] != socks[j]
    ensures Entered(cuts[|ws|]) == Entered(cuts[0]) + PollCalls(ws, socks, hooks, |ws|)
  {
    hide Entered, FdOf, Survives, Turn, PollCalls;
    IdleTurns(cuts, ws, p, socks, hooks, |ws|);
  }

  /** And it visits every ready socket of the snapshot. */
  lemma IdlePollServes(cuts: seq<seq<Event>>, ws: seq<Watch>, p: nat, socks: seq<SocketRef>, hooks: nat -> Hooks,
                       k: nat)
    requires Turns(cuts, ws, p, socks, hooks) && Ascending(cuts) && NoUser(cuts[0], cuts[|ws|])
    requires forall k :: 0 <= k < |ws| ==> FdOf(cuts[0], socks[k]) == Some(ws[k].fd) && Survives(cuts[0], ws[k].token)
    requires forall i, j :: 0 <= i < j < |ws| ==> socks[i] != socks[j]
    requires k < |ws| && Ready(hooks(k), socks[k])
    ensures Has(cuts[k], cuts[k + 1], VisitOf(ws[k], p))
    ensures TurnAnswered(cuts[k], cuts[k + 1], ws[k], p, socks[k], hooks(k))
  {
    hide Entered, FdOf, Survives, Turn, PollCalls, Has, Turns, NoUser, VerdictAnswered, ListenerAnswered,
         DatagramAnswered, StreamAnswered;
    IdleTurns(cuts, ws, p, socks, hooks, k);
    TurnsAreAnswered(cuts, ws, p, socks, hooks, k);
  }

  lemma {:induction false} IdleTurns(cuts: seq<seq<Event>>, ws: seq<Watch>, p: nat, socks: seq<SocketRef>,
                                     hooks: nat -> Hooks, n: nat)
    requires Turns(cuts, ws, p, socks, hooks) && n <= |ws| && Ascending(cuts) && NoUser(cuts[0], cuts[|ws|])
    requires forall k :: 0 <= k < |ws| ==> FdOf(cuts[0], socks[k]) == Some(ws[k].fd) && Survives(cuts[0], ws[k].token)
    requires forall i, j :: 0 <= i < j < |ws| ==> socks[i] != socks[j]
    ensures Entered(cuts[n]) == Entered(cuts[0]) + PollCalls(ws, socks, hooks, n)
    ensures forall k :: n <= k < |ws| ==> FdOf(cuts[n], socks[k]) == Some(ws[k].fd) && Survives(cuts[n], ws[k].token)
  {
    hide Entered, FdOf, Survives, Turn, TurnCalls, TurnCloses, NoUser, OnlyLookedAt, Ran, Ascending;
    if n == 0 {
      assert Entered(cuts[0]) + [] == Entered(cuts[0]);
    } else {
      var k := n - 1;
      IdleTurns(cuts, ws, p, socks, hooks, k);
      NoUserWithin(cuts, k, |ws|);
      assert Turn(cuts[k], cuts[n], ws[k], p, socks[k], hooks(k));
      IdleTurn(cuts[k], cuts[n], ws[k], p, socks[k], hooks(k));
      RanEntered(cuts[k], cuts[n], ws[k].token, socks[k], TurnCalls(socks[k], hooks(k)),
                 TurnCloses(socks[k], hooks(k)));
      forall l | n <= l < |ws|
        ensures FdOf(cuts[n], socks[l]) == Some(ws[l].fd) && Survives(cuts[n], ws[l].token)
      {
        RanElsewhere(cuts[k], cuts[n], ws[k].token, socks[k], TurnCalls(socks[k], hooks(k)),
                     TurnCloses(socks[k], hooks(k)), socks[l], ws[l].token);
      }
      assert Entered(cuts[0]) + (PollCalls(ws, socks, hooks, k) + CallsOf(ws[k].token, TurnCalls(socks[k], hooks(k))))
          == Entered(cuts[0]) + PollCalls(ws, socks, hooks, k) + CallsOf(ws[k].token, TurnCalls(socks[k], hooks(k)));
    }
  }

  lemma RanEntered(a: seq<Event>, b: seq<Event>, t: nat, s: SocketRef, whats: seq<Callback>, closed: bool)
    requires Ran(a, b, t, s, whats, closed)
    ensures Entered(b) == Entered(a) + CallsOf(t, whats)
  {
    hide Entered, FdOf, Survives;
  }

  lemma RanElsewhere(a: seq<Event>, b: seq<Event>, t: nat, s: SocketRef, whats: seq<Callback>, closed: bool,
                     other: SocketRef, u: nat)
    requires Ran(a, b, t, s, whats, closed) && other != s
    ensures FdOf(b, other) == FdOf(a, other) && (Survives(b, u) <==> Survives(a, u))
  {
    hide Entered, FdOf, Survives;
  }

  lemma NoUserWithin(cuts: seq<seq<Event>>, k: nat, n: nat)
    requires k + 1 < |cuts| && k < n < |cuts| && Ascending(cuts) && NoUser(cuts[0], cuts[n])
    ensures NoUser(cuts[k], cuts[k + 1])
  {
    var a, m, l, b := cuts[0], cuts[k], cuts[k + 1], cuts[n];
    assert a <= m && m <= l && l <= b by {
      assert k == 0 || a <= m;
      assert k + 1 == n || l <= b;
    }
    NoUserPart(a, m, b);
    NoUserPart(m, l, b);
  }

  lemma NoUserExtends(a: seq<Event>, b: seq<Event>)
    requires NoUser(a, b)
    ensures a <= b
  {
  }

  lemma NoUserThen(a: seq<Event>, m: seq<Event>, b: seq<Event>)
    ensures NoUser(a, m) && NoUser(m, b) ==> NoUser(a, b)
  {
  }

  lemma NoUserStays(a: seq<Event>, b: seq<Event>)
    requires OnlyLookedAt(a, b)
    ensures NoUser(a, b)
  {
  }
}
