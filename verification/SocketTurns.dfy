/** What each turn of the poller's dispatch loop owes to the socket it visits: the hooks of
    the socket decide which callbacks are entered, whether the socket is closed or flushed
    and what is counted, and user code only through the registration and the descriptor it
    leaves behind. */
module SocketTurns {
  import Transport
  import opened SocketTraces
  import opened Wrappers

  // ----- the steps of a turn, from one trace to the next -------------------

  /** The token is still registered. */
  predicate Survives(trace: seq<Event>, t: nat) {
    Retired(t) !in trace
  }

  /** One callback is entered and runs its operations. */
  ghost predicate Calls(a: seq<Event>, b: seq<Event>, t: nat, p: nat, what: Callback) {
    a < b && b[|a|] == Fired(t, p, what) && forall i :: |a| < i < |b| ==> ByUser(b[i])
  }

  /** A callback of the socket, then the set's one if the token survived it. */
  ghost predicate Both(a: seq<Event>, b: seq<Event>, t: nat, p: nat, own: Callback, fan: Callback) {
    exists m :: Calls(a, m, t, p, own) && if Survives(m, t) then Calls(m, b, t, p, fan) else b == m
  }

  lemma BothCalls(a: seq<Event>, m: seq<Event>, b: seq<Event>, t: nat, p: nat, own: Callback, fan: Callback)
    requires Calls(a, m, t, p, own) && if Survives(m, t) then Calls(m, b, t, p, fan) else b == m
    ensures Both(a, b, t, p, own, fan)
  {
    hide Calls, Survives;
  }

  /** The poller closes the socket, whose close callback runs if it was open. */
  ghost predicate Closes(a: seq<Event>, b: seq<Event>, t: nat, p: nat, s: SocketRef) {
    var c := a + [Used(t, p), Closed(t, p, s, FdOf(a, s).Some?)];
    if FdOf(a, s).Some? then Calls(c, b, t, p, OnClose) else b == c
  }

  /** An orderly end: closed, and reported by the set if still registered. */
  ghost predicate EndsStream(a: seq<Event>, b: seq<Event>, t: nat, p: nat, s: SocketRef) {
    exists m :: Closes(a, m, t, p, s) && if Survives(m, t) then Calls(m, b, t, p, OnSocketClose) else b == m
  }

  /** What a socket must be for something to follow a callback: registered, registered and
      open, or registered under the watched descriptor. */
  datatype Need = Kept | Open | Under(fd: nat)

  predicate Meets(trace: seq<Event>, t: nat, s: SocketRef, need: Need) {
    Survives(trace, t) &&
    match need
    case Kept => true
    case Open => FdOf(trace, s).Some?
    case Under(fd) => FdOf(trace, s) == Some(fd)
  }

  /** An error is reported; close says whether and when a close follows. */
  ghost predicate Errs(a: seq<Event>, b: seq<Event>, t: nat, p: nat, s: SocketRef, close: Option<Need>) {
    exists m :: Both(a + [Used(t, p)], m, t, p, OnError, OnSocketError) && ClosesAfter(m, b, t, p, s, close)
  }

  /** After the callbacks of an error: the close, if it is due and the socket as needed. */
  ghost predicate ClosesAfter(m: seq<Event>, b: seq<Event>, t: nat, p: nat, s: SocketRef, close: Option<Need>) {
    if close.Some? && Survives(m, t) then
      var u := m + [Used(t, p)];
      if Meets(m, t, s, close.value) then Closes(u, b, t, p, s) else b == u
    else b == m
  }

  /** poll_step leaves application data alone. */
  predicate Verdicts(h: Hooks) {
    h.step <= 0 || h.step == 2 || h.step == 3
  }

  ghost predicate FollowsVerdict(a: seq<Event>, b: seq<Event>, w: Watch, p: nat, s: SocketRef, h: Hooks) {
    var c := a + [Counted(w.token, p)];
    if h.step < 0 then Errs(c, b, w.token, p, s, Some(Open))
    else if h.step == 3 then EndsStream(c, b, w.token, p, s)
    else if h.step == 2 then Connects(c, b, w, p, s)
    else b == c
  }

  ghost predicate Connects(a: seq<Event>, b: seq<Event>, w: Watch, p: nat, s: SocketRef) {
    var t := w.token;
    exists m :: Calls(a, m, t, p, OnConnect) &&
      if !Survives(m, t) then b == m
      else if FdOf(m, s) != Some(w.fd) then b == m + [Used(t, p)]
      else Calls(m + [Used(t, p)], b, t, p, OnSocketConnect)
  }

  predicate ReadFails(h: Hooks) {
    if h.readReady then h.received < 0 && !h.wouldBlock else h.flags.err || h.flags.nval
  }

  ghost predicate ReadsStream(a: seq<Event>, b: seq<Event>, w: Watch, p: nat, s: SocketRef, h: Hooks) {
    var t := w.token;
    var u := a + [Used(t, p)];
    var c := u + [Counted(t, p)];
    if h.readReady && h.received > 0 then Both(c, b, t, p, OnData, OnSocketData)
    else if h.readReady && h.received == 0 then EndsStream(c, b, t, p, s)
    else if !ReadFails(h) then b == u
    else Errs(c, b, t, p, s, if h.readReady && h.errorTerminal then Some(Under(w.fd)) else None)
  }

  predicate FlushCounts(h: Hooks) {
    h.flushedBytes != 0 || h.drained || h.flushError
  }

  ghost predicate FlushesStream(a: seq<Event>, b: seq<Event>, w: Watch, p: nat, s: SocketRef, h: Hooks) {
    var t := w.token;
    if !Survives(a, t) then b == a
    else if FdOf(a, s) != Some(w.fd) || !h.queueReady then b == a + [Used(t, p)]
    else
      var f := a + [Used(t, p), Flushed(t, p, w.fd, w.fd)];
      var c := if FlushCounts(h) then f + [Counted(t, p)] else f;
      if h.flushError then Errs(c, b, t, p, s, if h.errorTerminal then Some(Under(w.fd)) else None)
      else if h.drained then Both(c, b, t, p, OnDrain, OnSocketDrain)
      else b == c
  }

  ghost predicate MovesData(a: seq<Event>, b: seq<Event>, w: Watch, p: nat, s: SocketRef, h: Hooks) {
    exists m :: ReadsStream(a, m, w, p, s, h) && FlushesStream(m, b, w, p, s, h)
  }

  predicate ListenerFails(h: Hooks) {
    !h.flags.input && (h.flags.err || h.flags.nval || h.flags.hup)
  }

  ghost predicate Listens(a: seq<Event>, b: seq<Event>, w: Watch, p: nat, s: SocketRef, h: Hooks) {
    var t := w.token;
    var c := a + [Counted(t, p)];
    if h.flags.input then Calls(c, b, t, p, OnSocketListen)
    else if ListenerFails(h) then Errs(c, b, t, p, s, None)
    else b == a
  }

  predicate DatagramFails(h: Hooks) {
    if h.flags.input then h.received < 0 && !h.wouldBlock else h.flags.err || h.flags.nval
  }

  ghost predicate TakesDatagram(a: seq<Event>, b: seq<Event>, w: Watch, p: nat, s: SocketRef, h: Hooks) {
    var t := w.token;
    var u := a + [Used(t, p)];
    var c := u + [Counted(t, p)];
    if h.flags.input && h.received >= 0 then Both(c, b, t, p, OnDatagram, OnSocketDatagram)
    else if DatagramFails(h) then Errs(c, b, t, p, s, None)
    else b == u
  }

  /** What a visited socket gets. */
  ghost predicate Attends(a: seq<Event>, b: seq<Event>, w: Watch, p: nat, s: SocketRef, h: Hooks) {
    if s.Udp? then TakesDatagram(a, b, w, p, s, h)
    else if h.listener then Listens(a, b, w, p, s, h)
    else
      var u := a + [Used(w.token, p)];
      if Verdicts(h) then FollowsVerdict(u, b, w, p, s, h) else MovesData(u, b, w, p, s, h)
  }

  /** The wait has found something for the socket: readiness, or a deadline that is due. */
  predicate Ready(h: Hooks, s: SocketRef) {
    AnyFlag(h.flags) || (s.Tcp? && h.due)
  }

  /** One turn of the loop: a ready socket that is still registered under its descriptor is
      visited, any other is at most looked at. */
  ghost predicate Turn(a: seq<Event>, b: seq<Event>, w: Watch, p: nat, s: SocketRef, h: Hooks) {
    exists u :: OnlyLookedAt(a, u) &&
      if Ready(h, s) && Meets(a, w.token, s, Under(w.fd)) then Attends(u + [VisitOf(w, p)], b, w, p, s, h)
      else b == u
  }

  // ----- what happens between two traces -----------------------------------

  ghost predicate Has(a: seq<Event>, b: seq<Event>, e: Event) {
    exists i :: |a| <= i < |b| && b[i] == e
  }

  /** Where the user code that follows event i ends. */
  function Next(b: seq<Event>, i: nat): nat
    requires i < |b|
    decreases |b| - i
  {
    if i + 1 < |b| && ByUser(b[i + 1]) then Next(b, i + 1) else i + 1
  }

  lemma {:induction false} NextBound(b: seq<Event>, i: nat)
    requires i < |b|
    ensures i < Next(b, i) <= |b|
    ensures forall j :: i < j < Next(b, i) ==> ByUser(b[j])
    ensures Next(b, i) < |b| ==> !ByUser(b[Next(b, i)])
    decreases |b| - i
  {
    if i + 1 < |b| && ByUser(b[i + 1]) {
      NextBound(b, i + 1);
    }
  }

  /** The trace up to the end of the user code that follows event i. */
  function Upto(b: seq<Event>, i: nat): seq<Event>
    requires i < |b|
  {
    NextBound(b, i);
    b[..Next(b, i)]
  }

  /** e happens, and after the user code it runs the socket is still as needed. */
  ghost predicate Outlives(a: seq<Event>, b: seq<Event>, t: nat, s: SocketRef, e: Event, need: Need) {
    exists i :: |a| <= i < |b| && b[i] == e && Meets(Upto(b, i), t, s, need)
  }

  /** b goes on from a with an event of the poller, or not at all. */
  predicate GoesOn(a: seq<Event>, b: seq<Event>) {
    a <= b && (|a| < |b| ==> !ByUser(b[|a|]))
  }

  lemma HasSplit(a: seq<Event>, m: seq<Event>, b: seq<Event>, e: Event)
    requires a <= m <= b
    ensures Has(a, b, e) <==> Has(a, m, e) || Has(m, b, e)
  {
    assert forall i :: 0 <= i < |m| ==> m[i] == b[i];
  }

  lemma {:induction false} NextInPart(m: seq<Event>, b: seq<Event>, i: nat)
    requires GoesOn(m, b) && i < |m|
    ensures Next(b, i) == Next(m, i) && Upto(b, i) == Upto(m, i)
    decreases |m| - i
  {
    NextBound(m, i);
    NextBound(b, i);
    if i + 1 < |m| && ByUser(m[i + 1]) {
      NextInPart(m, b, i + 1);
    }
  }

  lemma OutlivesSplit(a: seq<Event>, m: seq<Event>, b: seq<Event>, t: nat, s: SocketRef, e: Event, need: Need)
    requires a <= m && GoesOn(m, b)
    ensures Outlives(a, b, t, s, e, need) <==> Outlives(a, m, t, s, e, need) || Outlives(m, b, t, s, e, need)
  {
    hide Meets, Upto;
    if Outlives(a, b, t, s, e, need) {
      var i :| |a| <= i < |b| && b[i] == e && Meets(Upto(b, i), t, s, need);
      if i < |m| {
        NextInPart(m, b, i);
        assert m[i] == e;
      }
    }
    if Outlives(a, m, t, s, e, need) {
      var i :| |a| <= i < |m| && m[i] == e && Meets(Upto(m, i), t, s, need);
      NextInPart(m, b, i);
      assert b[i] == e;
    }
  }

  /** One event of the poller that runs no user code. */
  lemma OneEvent(a: seq<Event>, x: Event, t: nat, s: SocketRef, e: Event, need: Need)
    requires !ByUser(x) && !x.Fired?
    ensures Has(a, a + [x], e) <==> e == x
    ensures e.Fired? ==> !Outlives(a, a + [x], t, s, e, need)
    ensures GoesOn(a, a + [x])
  {
    assert (a + [x])[|a|] == x;
  }

  lemma NoEvent(a: seq<Event>, t: nat, s: SocketRef, e: Event, need: Need)
    ensures !Has(a, a, e) && !Outlives(a, a, t, s, e, need) && GoesOn(a, a)
  {
  }

  lemma CallsHas(a: seq<Event>, b: seq<Event>, t: nat, p: nat, what: Callback, s: SocketRef, e: Event, need: Need)
    requires Calls(a, b, t, p, what) && !ByUser(e)
    ensures Has(a, b, e) <==> e == Fired(t, p, what)
    ensures Outlives(a, b, t, s, e, need) <==> e == Fired(t, p, what) && Meets(b, t, s, need)
    ensures GoesOn(a, b)
  {
    hide Meets;
    NextBound(b, |a|);
    assert Next(b, |a|) == |b|;
    assert b[..|b|] == b;
    assert Upto(b, |a|) == b;
  }

  /** How many events a poll has counted. */
  function Handled(trace: seq<Event>): nat {
    if trace == [] then 0 else Handled(trace[..|trace| - 1]) + (if trace[|trace| - 1].Counted? then 1 else 0)
  }

  lemma HandledSnoc(trace: seq<Event>, e: Event)
    ensures Handled(trace + [e]) == Handled(trace) + if e.Counted? then 1 else 0
  {
    assert (trace + [e])[..|trace|] == trace;
  }

  lemma {:induction false} HandledQuiet(a: seq<Event>, b: seq<Event>)
    requires a <= b && forall i :: |a| <= i < |b| ==> !b[i].Counted?
    ensures Handled(b) == Handled(a)
    decreases |b|
  {
    if a != b {
      HandledQuiet(a, b[..|b| - 1]);
    }
  }

  lemma CallsCounts(a: seq<Event>, b: seq<Event>, t: nat, p: nat, what: Callback)
    requires Calls(a, b, t, p, what)
    ensures Handled(b) == Handled(a)
  {
    HandledQuiet(a, b);
  }

  /** The poller's own marks leave descriptors and registrations alone. */
  lemma MarkKeeps(a: seq<Event>, x: Event, t: nat, s: SocketRef)
    requires x.Used? || x.Counted? || x.Visited? || x.Flushed? || x.Fired?
    ensures FdOf(a + [x], s) == FdOf(a, s) && (Survives(a + [x], t) <==> Survives(a, t))
  {
    FdOfSnoc(a, x, s);
  }

  // ----- the events of each step -------------------------------------------

  lemma BothTable(a: seq<Event>, b: seq<Event>, t: nat, p: nat, own: Callback, fan: Callback, s: SocketRef)
    returns (m: seq<Event>)
    requires Both(a, b, t, p, own, fan) && own != fan
    ensures GoesOn(a, b)
    ensures forall e: Event {:trigger Has(a, b, e)} :: !ByUser(e) ==>
              (Has(a, b, e) <==> e == Fired(t, p, own) || (e == Fired(t, p, fan) && Survives(m, t)))
    ensures forall what, need {:trigger Outlives(a, b, t, s, Fired(t, p, what), need)} ::
            Outlives(a, b, t, s, Fired(t, p, what), need) <==>
              || (what == own && Meets(m, t, s, need))
              || (what == fan && Survives(m, t) && Meets(b, t, s, need))
    ensures Handled(b) == Handled(a) && (!Survives(m, t) ==> m == b)
  {
    hide Meets, Has, Outlives, Handled, Survives;
    m :| Calls(a, m, t, p, own) && if Survives(m, t) then Calls(m, b, t, p, fan) else b == m;
    CallsCounts(a, m, t, p, own);
    if Survives(m, t) {
      CallsCounts(m, b, t, p, fan);
    }
    forall e: Event | !ByUser(e)
      ensures Has(a, b, e) <==> e == Fired(t, p, own) || (e == Fired(t, p, fan) && Survives(m, t))
    {
      BothEvent(a, m, b, t, p, own, fan, s, e, Kept);
    }
    forall what, need {:trigger Outlives(a, b, t, s, Fired(t, p, what), need)}
      ensures Outlives(a, b, t, s, Fired(t, p, what), need) <==>
                || (what == own && Meets(m, t, s, need))
                || (what == fan && Survives(m, t) && Meets(b, t, s, need))
    {
      BothEvent(a, m, b, t, p, own, fan, s, Fired(t, p, what), need);
    }
  }

  lemma BothEvent(a: seq<Event>, m: seq<Event>, b: seq<Event>, t: nat, p: nat, own: Callback, fan: Callback,
                  s: SocketRef, e: Event, need: Need)
    requires Calls(a, m, t, p, own) && (if Survives(m, t) then Calls(m, b, t, p, fan) else b == m) && !ByUser(e)
    ensures Has(a, b, e) <==> e == Fired(t, p, own) || (e == Fired(t, p, fan) && Survives(m, t))
    ensures Outlives(a, b, t, s, e, need) <==>
              || (e == Fired(t, p, own) && Meets(m, t, s, need))
              || (e == Fired(t, p, fan) && Survives(m, t) && Meets(b, t, s, need))
  {
    hide Meets, Has, Outlives, Survives;
    CallsHas(a, m, t, p, own, s, e, need);
    if Survives(m, t) {
      CallsHas(m, b, t, p, fan, s, e, need);
      HasSplit(a, m, b, e);
      OutlivesSplit(a, m, b, t, s, e, need);
    }
  }

  /** A close is one event, and the close callback if there was a descriptor to close. */
  lemma ClosesEvent(a: seq<Event>, b: seq<Event>, t: nat, p: nat, s: SocketRef, e: Event, need: Need)
    requires Closes(a, b, t, p, s) && !ByUser(e)
    ensures GoesOn(a, b) && Handled(b) == Handled(a)
    ensures Has(a, b, e) <==> || e == Used(t, p) || e == Closed(t, p, s, FdOf(a, s).Some?)
                              || (FdOf(a, s).Some? && e == Fired(t, p, OnClose))
    ensures e.Fired? ==> (Outlives(a, b, t, s, e, need) <==>
              FdOf(a, s).Some? && e == Fired(t, p, OnClose) && Meets(b, t, s, need))
  {
    hide Meets, Has, Outlives, Survives, Handled, FdOf, Calls;
    var x, y := Used(t, p), Closed(t, p, s, FdOf(a, s).Some?);
    var u := a + [x];
    var c := u + [y];
    assert c == a + [x, y];
    OneEvent(a, x, t, s, e, need);
    OneEvent(u, y, t, s, e, need);
    HasSplit(a, u, c, e);
    OutlivesSplit(a, u, c, t, s, e, need);
    HandledSnoc(a, x);
    HandledSnoc(u, y);
    if FdOf(a, s).Some? {
      CallsHas(c, b, t, p, OnClose, s, e, need);
      CallsCounts(c, b, t, p, OnClose);
      HasSplit(a, c, b, e);
      OutlivesSplit(a, c, b, t, s, e, need);
    }
  }

  /** The token survives what the poller itself does to it. */
  lemma OpenAfterMarks(a: seq<Event>, t: nat, p: nat, s: SocketRef)
    ensures FdOf(a + [Used(t, p)], s) == FdOf(a, s) && FdOf(a + [Counted(t, p)], s) == FdOf(a, s)
    ensures Survives(a + [Used(t, p)], t) <==> Survives(a, t)
    ensures Survives(a + [Counted(t, p)], t) <==> Survives(a, t)
  {
    MarkKeeps(a, Used(t, p), t, s);
    MarkKeeps(a, Counted(t, p), t, s);
  }

  // ----- what a hook outcome owes ------------------------------------------

  /** Nothing; one callback; a callback of the socket and, if the socket then meets the
      need, the set's one after it; an error report, with a close if the socket then meets
      the need; an orderly end. */
  datatype Duty = Nothing | Single(what: Callback) | Pair(own: Callback, fan: Callback, need: Need)
                | Failure(close: Option<Need>) | Ending

  /** The callback is one of those owed.  What follows a callback of the socket depends on
      whether the token outlives it. */
  ghost predicate Due(a: seq<Event>, b: seq<Event>, t: nat, p: nat, s: SocketRef, d: Duty, what: Callback) {
    match d
    case Nothing => false
    case Single(x) => what == x
    case Pair(own, fan, need) => what == own || (what == fan && Outlives(a, b, t, s, Fired(t, p, own), need))
    case Failure(_) =>
      || what == OnError
      || (what == OnSocketError && Outlives(a, b, t, s, Fired(t, p, OnError), Kept))
      || (what == OnClose && Has(a, b, Closed(t, p, s, true)))
    case Ending => what == OnClose || (what == OnSocketClose && Outlives(a, b, t, s, Fired(t, p, OnClose), Kept))
  }

  ghost predicate CloseDue(a: seq<Event>, b: seq<Event>, t: nat, p: nat, s: SocketRef, d: Duty) {
    match d
    case Failure(close) => close.Some? && Outlives(a, b, t, s, Fired(t, p, OnSocketError), close.value)
    case Ending => true
    case _ => false
  }

  /** Exactly the duty is done between two traces: these callbacks are entered and no
      others, the socket is closed or not, nothing is flushed, and so much is counted. */
  ghost predicate Fulfils(a: seq<Event>, b: seq<Event>, t: nat, p: nat, s: SocketRef, d: Duty, counted: nat) {
    && GoesOn(a, b) && Handled(b) == Handled(a) + counted
    && (forall what :: Has(a, b, Fired(t, p, what)) <==> Due(a, b, t, p, s, d, what))
    && (Has(a, b, Closed(t, p, s, true)) <==> CloseDue(a, b, t, p, s, d))
    && (forall fd, cur :: !Has(a, b, Flushed(t, p, fd, cur)))
  }

  /** A mark of the poller before a duty changes nothing but the count. */
  lemma FulfilsAfterMark(a: seq<Event>, x: Event, b: seq<Event>, t: nat, p: nat, s: SocketRef, d: Duty, counted: nat)
    requires Fulfils(a + [x], b, t, p, s, d, counted) && (x.Used? || x.Counted? || x.Visited?)
    ensures Fulfils(a, b, t, p, s, d, counted + if x.Counted? then 1 else 0)
  {
    hide Has, Outlives, Handled;
    var c := a + [x];
    HandledSnoc(a, x);
    OneEvent(a, x, t, s, x, Kept);
    assert GoesOn(a, b);
    if d.Failure? && d.close.Some? {
      MarkAside(a, x, b, t, s, Fired(t, p, OnSocketError), d.close.value);
    }
    if d.Pair? {
      MarkAside(a, x, b, t, s, Fired(t, p, d.own), d.need);
    }
    forall what
      ensures Has(a, b, Fired(t, p, what)) <==> Has(c, b, Fired(t, p, what))
      ensures Outlives(a, b, t, s, Fired(t, p, what), Kept) <==> Outlives(c, b, t, s, Fired(t, p, what), Kept)
    {
      MarkAside(a, x, b, t, s, Fired(t, p, what), Kept);
    }
    MarkAside(a, x, b, t, s, Closed(t, p, s, true), Kept);
    forall fd, cur
      ensures !Has(a, b, Flushed(t, p, fd, cur))
    {
      MarkAside(a, x, b, t, s, Flushed(t, p, fd, cur), Kept);
    }
  }

  lemma MarkAside(a: seq<Event>, x: Event, b: seq<Event>, t: nat, s: SocketRef, e: Event, need: Need)
    requires GoesOn(a + [x], b) && !ByUser(x) && !x.Fired? && e != x && !ByUser(e)
    ensures Has(a, b, e) <==> Has(a + [x], b, e)
    ensures e.Fired? ==> (Outlives(a, b, t, s, e, need) <==> Outlives(a + [x], b, t, s, e, need))
  {
    hide Has, Outlives;
    OneEvent(a, x, t, s, e, need);
    HasSplit(a, a + [x], b, e);
    OutlivesSplit(a, a + [x], b, t, s, e, need);
  }

  lemma ClosesAfterEvent(m: seq<Event>, b: seq<Event>, t: nat, p: nat, s: SocketRef, close: Option<Need>, e: Event,
                         need: Need)
    requires ClosesAfter(m, b, t, p, s, close) && (close.Some? ==> close.value != Kept) && !ByUser(e) && !e.Used?
    ensures GoesOn(m, b) && Handled(b) == Handled(m)
    ensures Has(m, b, e) <==> close.Some? && Meets(m, t, s, close.value) &&
                              (e == Closed(t, p, s, true) || e == Fired(t, p, OnClose))
    ensures e.Fired? && e.what != OnClose ==> !Outlives(m, b, t, s, e, need)
  {
    hide Has, Outlives, Handled, FdOf, Closes;
    var u := m + [Used(t, p)];
    NoEvent(m, t, s, e, need);
    OneEvent(m, Used(t, p), t, s, e, need);
    HandledSnoc(m, Used(t, p));
    OpenAfterMarks(m, t, p, s);
    if close.Some? && Meets(m, t, s, close.value) {
      ClosesEvent(u, b, t, p, s, e, need);
      HasSplit(m, u, b, e);
      OutlivesSplit(m, u, b, t, s, e, need);
    }
  }

  lemma ErrsEvent(a: seq<Event>, m: seq<Event>, b: seq<Event>, t: nat, p: nat, s: SocketRef, close: Option<Need>,
                  e: Event, need: Need)
    requires Both(a + [Used(t, p)], m, t, p, OnError, OnSocketError) && ClosesAfter(m, b, t, p, s, close)
    requires (close.Some? ==> close.value != Kept) && !ByUser(e) && !e.Used?
    ensures GoesOn(a, b) && Handled(b) == Handled(a)
    ensures var u := a + [Used(t, p)];
            Has(a, b, e) <==> Has(u, m, e) || Has(m, b, e)
    ensures e.Fired? && e.what != OnClose ==>
              (Outlives(a, b, t, s, e, need) <==> Outlives(a + [Used(t, p)], m, t, s, e, need))
  {
    hide Has, Outlives, Handled, FdOf, ClosesAfter, Both;
    var u := a + [Used(t, p)];
    var _ := BothTable(u, m, t, p, OnError, OnSocketError, s);
    ClosesAfterEvent(m, b, t, p, s, close, e, need);
    OneEvent(a, Used(t, p), t, s, e, need);
    HandledSnoc(a, Used(t, p));
    HasSplit(a, u, m, e);
    HasSplit(a, m, b, e);
    OutlivesSplit(a, u, m, t, s, e, need);
    OutlivesSplit(a, m, b, t, s, e, need);
  }

  lemma ErrorLaw(a: seq<Event>, b: seq<Event>, t: nat, p: nat, s: SocketRef, close: Option<Need>)
    requires Errs(a, b, t, p, s, close) && (close.Some? ==> close.value != Kept)
    ensures Fulfils(a, b, t, p, s, Failure(close), 0)
  {
    hide Has, Outlives, Handled, FdOf, ClosesAfter, Both, Meets, Survives;
    var u := a + [Used(t, p)];
    var m :| Both(u, m, t, p, OnError, OnSocketError) && ClosesAfter(m, b, t, p, s, close);
    var mm := BothTable(u, m, t, p, OnError, OnSocketError, s);
    assert Meets(mm, t, s, Kept) <==> Survives(mm, t) by { KeptIsSurviving(mm, t, s); }
    ErrsEvent(a, m, b, t, p, s, close, Closed(t, p, s, true), Kept);
    ClosesAfterEvent(m, b, t, p, s, close, Closed(t, p, s, true), Kept);
    if close.Some? {
      ErrsEvent(a, m, b, t, p, s, close, Fired(t, p, OnSocketError), close.value);
      MeetsSurvives(m, t, s, close.value);
    }
    ErrsEvent(a, m, b, t, p, s, close, Fired(t, p, OnError), Kept);
    forall what
      ensures Has(a, b, Fired(t, p, what)) <==> Due(a, b, t, p, s, Failure(close), what)
    {
      ErrsEvent(a, m, b, t, p, s, close, Fired(t, p, what), Kept);
      ClosesAfterEvent(m, b, t, p, s, close, Fired(t, p, what), Kept);
    }
    forall fd, cur
      ensures !Has(a, b, Flushed(t, p, fd, cur))
    {
      ErrsEvent(a, m, b, t, p, s, close, Flushed(t, p, fd, cur), Kept);
      ClosesAfterEvent(m, b, t, p, s, close, Flushed(t, p, fd, cur), Kept);
    }
  }

  lemma KeptIsSurviving(m: seq<Event>, t: nat, s: SocketRef)
    ensures Meets(m, t, s, Kept) <==> Survives(m, t)
  {
  }

  lemma MeetsSurvives(m: seq<Event>, t: nat, s: SocketRef, need: Need)
    ensures Meets(m, t, s, need) ==> Survives(m, t)
  {
  }

  lemma EndLaw(a: seq<Event>, b: seq<Event>, t: nat, p: nat, s: SocketRef)
    requires EndsStream(a, b, t, p, s) && FdOf(a, s).Some?
    ensures Fulfils(a, b, t, p, s, Ending, 0)
  {
    hide Has, Outlives, Handled, FdOf, Closes, Calls, Meets, Survives;
    var m :| Closes(a, m, t, p, s) && if Survives(m, t) then Calls(m, b, t, p, OnSocketClose) else b == m;
    KeptIsSurviving(m, t, s);
    EndEvent(a, m, b, t, p, s, Closed(t, p, s, true));
    EndEvent(a, m, b, t, p, s, Fired(t, p, OnClose));
    forall what
      ensures Has(a, b, Fired(t, p, what)) <==> Due(a, b, t, p, s, Ending, what)
    {
      EndEvent(a, m, b, t, p, s, Fired(t, p, what));
    }
    forall fd, cur
      ensures !Has(a, b, Flushed(t, p, fd, cur))
    {
      EndEvent(a, m, b, t, p, s, Flushed(t, p, fd, cur));
    }
  }

  lemma EndEvent(a: seq<Event>, m: seq<Event>, b: seq<Event>, t: nat, p: nat, s: SocketRef, e: Event)
    requires Closes(a, m, t, p, s) && FdOf(a, s).Some?
    requires if Survives(m, t) then Calls(m, b, t, p, OnSocketClose) else b == m
    requires !ByUser(e) && !e.Used?
    ensures GoesOn(a, b) && Handled(b) == Handled(a)
    ensures Has(a, b, e) <==> || e == Closed(t, p, s, true) || e == Fired(t, p, OnClose)
                              || (Survives(m, t) && e == Fired(t, p, OnSocketClose))
    ensures e == Fired(t, p, OnClose) ==> (Outlives(a, b, t, s, e, Kept) <==> Meets(m, t, s, Kept))
  {
    hide Has, Outlives, Handled, FdOf, Closes, Meets, Survives;
    ClosesEvent(a, m, t, p, s, e, Kept);
    if Survives(m, t) {
      CallsHas(m, b, t, p, OnSocketClose, s, e, Kept);
      CallsCounts(m, b, t, p, OnSocketClose);
      HasSplit(a, m, b, e);
      OutlivesSplit(a, m, b, t, s, e, Kept);
    }
  }

  lemma PairLaw(a: seq<Event>, b: seq<Event>, t: nat, p: nat, s: SocketRef, own: Callback, fan: Callback)
    requires Both(a, b, t, p, own, fan) && own != fan
    ensures Fulfils(a, b, t, p, s, Pair(own, fan, Kept), 0)
  {
    hide Has, Outlives, Handled, FdOf, Both, Meets, Survives;
    var m := BothTable(a, b, t, p, own, fan, s);
    KeptIsSurviving(m, t, s);
    assert Outlives(a, b, t, s, Fired(t, p, own), Kept) <==> Survives(m, t) || (own == fan && Meets(b, t, s, Kept));
  }

  lemma SingleLaw(a: seq<Event>, b: seq<Event>, t: nat, p: nat, s: SocketRef, what: Callback)
    requires Calls(a, b, t, p, what)
    ensures Fulfils(a, b, t, p, s, Single(what), 0)
  {
    hide Has, Outlives, Handled, FdOf, Meets, Survives, Calls;
    CallsCounts(a, b, t, p, what);
    CallsHas(a, b, t, p, what, s, Closed(t, p, s, true), Kept);
    forall x
      ensures Has(a, b, Fired(t, p, x)) <==> x == what
    {
      CallsHas(a, b, t, p, what, s, Fired(t, p, x), Kept);
    }
    forall fd, cur
      ensures !Has(a, b, Flushed(t, p, fd, cur))
    {
      CallsHas(a, b, t, p, what, s, Flushed(t, p, fd, cur), Kept);
    }
  }

  lemma NothingLaw(a: seq<Event>, t: nat, p: nat, s: SocketRef)
    ensures Fulfils(a, a, t, p, s, Nothing, 0)
  {
  }

  lemma {:induction false} FulfilsAfterLooks(a: seq<Event>, u: seq<Event>, b: seq<Event>, t: nat, p: nat,
                                             s: SocketRef, d: Duty, counted: nat)
    requires Fulfils(u, b, t, p, s, d, counted) && OnlyLookedAt(a, u)
    ensures Fulfils(a, b, t, p, s, d, counted)
    decreases |u|
  {
    hide Fulfils;
    if a != u {
      var n := |u| - 1;
      assert u == u[..n] + [u[n]];
      FulfilsAfterMark(u[..n], u[n], b, t, p, s, d, counted);
      FulfilsAfterLooks(a, u[..n], b, t, p, s, d, counted);
    }
  }

  // ----- the duties of a turn ----------------------------------------------

  function ReadDuty(h: Hooks, fd: nat): Duty {
    if h.readReady && h.received > 0 then Pair(OnData, OnSocketData, Kept)
    else if h.readReady && h.received == 0 then Ending
    else if ReadFails(h) then Failure(if h.readReady && h.errorTerminal then Some(Under(fd)) else None)
    else Nothing
  }

  lemma ReadLaw(a: seq<Event>, b: seq<Event>, w: Watch, p: nat, s: SocketRef, h: Hooks)
    requires ReadsStream(a, b, w, p, s, h) && FdOf(a, s).Some?
    ensures var d := ReadDuty(h, w.fd); Fulfils(a, b, w.token, p, s, d, if d == Nothing then 0 else 1)
  {
    hide Fulfils, Errs, Both, EndsStream, FdOf;
    var t := w.token;
    var d := ReadDuty(h, w.fd);
    var u := a + [Used(t, p)];
    OpenAfterMarks(a, t, p, s);
    if d == Nothing {
      NothingLaw(u, t, p, s);
      FulfilsAfterMark(a, Used(t, p), b, t, p, s, d, 0);
    } else {
      var c := u + [Counted(t, p)];
      OpenAfterMarks(u, t, p, s);
      if d.Pair? {
        PairLaw(c, b, t, p, s, OnData, OnSocketData);
      } else if d.Ending? {
        EndLaw(c, b, t, p, s);
      } else {
        ErrorLaw(c, b, t, p, s, d.close);
      }
      FulfilsAfterMark(u, Counted(t, p), b, t, p, s, d, 0);
      FulfilsAfterMark(a, Used(t, p), b, t, p, s, d, 1);
    }
  }

  function FlushDuty(h: Hooks, fd: nat): Duty {
    if h.flushError then Failure(if h.errorTerminal then Some(Under(fd)) else None)
    else if h.drained then Pair(OnDrain, OnSocketDrain, Kept)
    else Nothing
  }

  /** A flush, or none, and what is owed after it. */
  lemma FlushLaw(a: seq<Event>, b: seq<Event>, w: Watch, p: nat, s: SocketRef, h: Hooks)
    requires FlushesStream(a, b, w, p, s, h)
    ensures if Meets(a, w.token, s, Under(w.fd)) && h.queueReady then
              Fulfils(a + [Used(w.token, p), Flushed(w.token, p, w.fd, w.fd)], b, w.token, p, s, FlushDuty(h, w.fd),
                      if FlushCounts(h) then 1 else 0)
            else OnlyLookedAt(a, b)
  {
    hide Fulfils, Errs, Both, FdOf, Survives;
    var t := w.token;
    if Meets(a, t, s, Under(w.fd)) && h.queueReady {
      var f := a + [Used(t, p), Flushed(t, p, w.fd, w.fd)];
      var c := if FlushCounts(h) then f + [Counted(t, p)] else f;
      var d := FlushDuty(h, w.fd);
      if d.Pair? {
        PairLaw(c, b, t, p, s, OnDrain, OnSocketDrain);
      } else if d.Failure? {
        ErrorLaw(c, b, t, p, s, d.close);
      } else {
        NothingLaw(c, t, p, s);
      }
      if FlushCounts(h) {
        FulfilsAfterMark(f, Counted(t, p), b, t, p, s, d, 0);
      }
    }
  }

  function VerdictDuty(h: Hooks, fd: nat): Duty {
    if h.step < 0 then Failure(Some(Open))
    else if h.step == 3 then Ending
    else if h.step == 2 then Pair(OnConnect, OnSocketConnect, Under(fd))
    else Nothing
  }

  lemma VerdictLaw(a: seq<Event>, b: seq<Event>, w: Watch, p: nat, s: SocketRef, h: Hooks)
    requires FollowsVerdict(a, b, w, p, s, h) && FdOf(a, s).Some? && Verdicts(h)
    ensures Fulfils(a, b, w.token, p, s, VerdictDuty(h, w.fd), 1)
  {
    hide Fulfils, Errs, EndsStream, FdOf, Connects;
    var t := w.token;
    var d := VerdictDuty(h, w.fd);
    var c := a + [Counted(t, p)];
    OpenAfterMarks(a, t, p, s);
    if h.step == 2 {
      ConnectLaw(c, b, w, p, s);
    } else if h.step < 0 {
      ErrorLaw(c, b, t, p, s, Some(Open));
    } else if h.step == 3 {
      EndLaw(c, b, t, p, s);
    } else {
      NothingLaw(c, t, p, s);
    }
    FulfilsAfterMark(a, Counted(t, p), b, t, p, s, d, 0);
  }

  lemma ConnectLaw(a: seq<Event>, b: seq<Event>, w: Watch, p: nat, s: SocketRef)
    requires Connects(a, b, w, p, s)
    ensures Fulfils(a, b, w.token, p, s, Pair(OnConnect, OnSocketConnect, Under(w.fd)), 0)
  {
    hide Has, Outlives, Handled, FdOf, Calls, Meets, Survives;
    var t := w.token;
    var m :| Calls(a, m, t, p, OnConnect) &&
      if !Survives(m, t) then b == m
      else if FdOf(m, s) != Some(w.fd) then b == m + [Used(t, p)]
      else Calls(m + [Used(t, p)], b, t, p, OnSocketConnect);
    UnderIs(m, t, s, w.fd);
    ConnectEvent(a, m, b, w, p, s, Fired(t, p, OnConnect));
    ConnectEvent(a, m, b, w, p, s, Closed(t, p, s, true));
    forall what
      ensures Has(a, b, Fired(t, p, what)) <==>
                what == OnConnect || (what == OnSocketConnect && Meets(m, t, s, Under(w.fd)))
    {
      ConnectEvent(a, m, b, w, p, s, Fired(t, p, what));
    }
    forall fd, cur
      ensures !Has(a, b, Flushed(t, p, fd, cur))
    {
      ConnectEvent(a, m, b, w, p, s, Flushed(t, p, fd, cur));
    }
  }

  lemma UnderIs(m: seq<Event>, t: nat, s: SocketRef, fd: nat)
    ensures Meets(m, t, s, Under(fd)) <==> Survives(m, t) && FdOf(m, s) == Some(fd)
  {
  }

  lemma ConnectEvent(a: seq<Event>, m: seq<Event>, b: seq<Event>, w: Watch, p: nat, s: SocketRef, e: Event)
    requires Calls(a, m, w.token, p, OnConnect)
    requires var t := w.token;
             if !Survives(m, t) then b == m
             else if FdOf(m, s) != Some(w.fd) then b == m + [Used(t, p)]
             else Calls(m + [Used(t, p)], b, t, p, OnSocketConnect)
    requires !ByUser(e) && !e.Used?
    ensures var t := w.token;
            && GoesOn(a, b) && Handled(b) == Handled(a)
            && (Has(a, b, e) <==>
                  e == Fired(t, p, OnConnect) || (e == Fired(t, p, OnSocketConnect) && Meets(m, t, s, Under(w.fd))))
            && (e == Fired(t, p, OnConnect) ==>
                  (Outlives(a, b, t, s, e, Under(w.fd)) <==> Meets(m, t, s, Under(w.fd))))
  {
    hide Has, Outlives, Handled, FdOf, Calls, Meets, Survives;
    var t := w.token;
    var need := Under(w.fd);
    var u := m + [Used(t, p)];
    UnderIs(m, t, s, w.fd);
    CallsHas(a, m, t, p, OnConnect, s, e, need);
    CallsCounts(a, m, t, p, OnConnect);
    if Survives(m, t) {
      OneEvent(m, Used(t, p), t, s, e, need);
      HandledSnoc(m, Used(t, p));
      HasSplit(a, m, u, e);
      OutlivesSplit(a, m, u, t, s, e, need);
      if FdOf(m, s) == Some(w.fd) {
        CallsHas(u, b, t, p, OnSocketConnect, s, e, need);
        CallsCounts(u, b, t, p, OnSocketConnect);
        HasSplit(a, u, b, e);
        OutlivesSplit(a, u, b, t, s, e, need);
      }
    }
  }

  function ListenerDuty(h: Hooks): Duty {
    if h.flags.input then Single(OnSocketListen) else if ListenerFails(h) then Failure(None) else Nothing
  }

  lemma ListenerLaw(a: seq<Event>, b: seq<Event>, w: Watch, p: nat, s: SocketRef, h: Hooks)
    requires Listens(a, b, w, p, s, h)
    ensures var d := ListenerDuty(h); Fulfils(a, b, w.token, p, s, d, if d == Nothing then 0 else 1)
  {
    hide Fulfils, Errs, Calls, FdOf;
    var t := w.token;
    var d := ListenerDuty(h);
    var c := a + [Counted(t, p)];
    if d == Nothing {
      NothingLaw(a, t, p, s);
    } else {
      if d.Single? {
        SingleLaw(c, b, t, p, s, OnSocketListen);
      } else {
        ErrorLaw(c, b, t, p, s, None);
      }
      FulfilsAfterMark(a, Counted(t, p), b, t, p, s, d, 0);
    }
  }

  function DatagramDuty(h: Hooks): Duty {
    if h.flags.input && h.received >= 0 then Pair(OnDatagram, OnSocketDatagram, Kept)
    else if DatagramFails(h) then Failure(None)
    else Nothing
  }

  lemma DatagramLaw(a: seq<Event>, b: seq<Event>, w: Watch, p: nat, s: SocketRef, h: Hooks)
    requires TakesDatagram(a, b, w, p, s, h)
    ensures var d := DatagramDuty(h); Fulfils(a, b, w.token, p, s, d, if d == Nothing then 0 else 1)
  {
    hide Fulfils, Errs, Both, FdOf;
    var t := w.token;
    var d := DatagramDuty(h);
    var u := a + [Used(t, p)];
    if d == Nothing {
      NothingLaw(u, t, p, s);
      FulfilsAfterMark(a, Used(t, p), b, t, p, s, d, 0);
    } else {
      var c := u + [Counted(t, p)];
      if d.Pair? {
        PairLaw(c, b, t, p, s, OnDatagram, OnSocketDatagram);
      } else {
        ErrorLaw(c, b, t, p, s, None);
      }
      FulfilsAfterMark(u, Counted(t, p), b, t, p, s, d, 0);
      FulfilsAfterMark(a, Used(t, p), b, t, p, s, d, 1);
    }
  }

  // ----- every outcome of a turn -------------------------------------------

  const VerdictCallbacks := {OnConnect, OnSocketConnect, OnError, OnSocketError, OnClose, OnSocketClose}
  const ReadCallbacks := {OnData, OnSocketData, OnError, OnSocketError, OnClose, OnSocketClose}
  const FlushCallbacks := {OnDrain, OnSocketDrain, OnError, OnSocketError, OnClose}

  /** What poll_step's verdict on its own leads to: completed handshakes are announced,
      failures reported and closed, and an orderly end closed and reported. */
  ghost predicate VerdictAnswered(a: seq<Event>, b: seq<Event>, w: Watch, p: nat, s: SocketRef, h: Hooks) {
    var t := w.token;
    && (Has(a, b, Fired(t, p, OnConnect)) <==> h.step == 2)
    && (Has(a, b, Fired(t, p, OnSocketConnect)) <==>
          h.step == 2 && Outlives(a, b, t, s, Fired(t, p, OnConnect), Under(w.fd)))
    && (Has(a, b, Fired(t, p, OnError)) <==> h.step < 0)
    && (Has(a, b, Fired(t, p, OnSocketError)) <==>
          h.step < 0 && Outlives(a, b, t, s, Fired(t, p, OnError), Kept))
    && (Has(a, b, Closed(t, p, s, true)) <==>
          h.step == 3 || (h.step < 0 && Outlives(a, b, t, s, Fired(t, p, OnSocketError), Open)))
    && (Has(a, b, Fired(t, p, OnClose)) <==> Has(a, b, Closed(t, p, s, true)))
    && (Has(a, b, Fired(t, p, OnSocketClose)) <==>
          h.step == 3 && Outlives(a, b, t, s, Fired(t, p, OnClose), Kept))
    && (forall what :: what !in VerdictCallbacks ==> !Has(a, b, Fired(t, p, what)))
    && (forall fd, cur :: !Has(a, b, Flushed(t, p, fd, cur)))
    && Handled(b) == Handled(a) + 1
  }

  /** What the read half of a stream's turn leads to: octets are handed to both data
      callbacks, the end of the stream closes it, and an error is reported. */
  ghost predicate ReadAnswered(a: seq<Event>, b: seq<Event>, w: Watch, p: nat, s: SocketRef, h: Hooks) {
    var t := w.token;
    var failed := if h.readReady then h.received < 0 && !h.wouldBlock else h.flags.err || h.flags.nval;
    && (Has(a, b, Fired(t, p, OnData)) <==> h.readReady && h.received > 0)
    && (Has(a, b, Fired(t, p, OnSocketData)) <==>
          h.readReady && h.received > 0 && Outlives(a, b, t, s, Fired(t, p, OnData), Kept))
    && (Has(a, b, Fired(t, p, OnError)) <==> failed)
    && (Has(a, b, Fired(t, p, OnSocketError)) <==> failed && Outlives(a, b, t, s, Fired(t, p, OnError), Kept))
    && (Has(a, b, Closed(t, p, s, true)) <==>
          || (h.readReady && h.received == 0)
          || (failed && h.readReady && h.errorTerminal &&
              Outlives(a, b, t, s, Fired(t, p, OnSocketError), Under(w.fd))))
    && (Has(a, b, Fired(t, p, OnClose)) <==> Has(a, b, Closed(t, p, s, true)))
    && (Has(a, b, Fired(t, p, OnSocketClose)) <==>
          h.readReady && h.received == 0 && Outlives(a, b, t, s, Fired(t, p, OnClose), Kept))
    && (forall what :: what !in ReadCallbacks ==> !Has(a, b, Fired(t, p, what)))
    && (forall fd, cur :: !Has(a, b, Flushed(t, p, fd, cur)))
    && Handled(b) == Handled(a) + if failed || (h.readReady && h.received >= 0) then 1 else 0
  }

  /** What the write half leads to: the queue is flushed exactly if it is ready and the
      socket is still registered under its descriptor; then the drain callbacks follow, or
      the error. */
  ghost predicate FlushAnswered(a: seq<Event>, b: seq<Event>, w: Watch, p: nat, s: SocketRef, h: Hooks) {
    var t := w.token;
    var flushed := Has(a, b, Flushed(t, p, w.fd, w.fd));
    && (flushed <==> h.queueReady && Survives(a, t) && FdOf(a, s) == Some(w.fd))
    && (Has(a, b, Fired(t, p, OnDrain)) <==> flushed && h.drained && !h.flushError)
    && (Has(a, b, Fired(t, p, OnSocketDrain)) <==>
          flushed && h.drained && !h.flushError && Outlives(a, b, t, s, Fired(t, p, OnDrain), Kept))
    && (Has(a, b, Fired(t, p, OnError)) <==> flushed && h.flushError)
    && (Has(a, b, Fired(t, p, OnSocketError)) <==>
          flushed && h.flushError && Outlives(a, b, t, s, Fired(t, p, OnError), Kept))
    && (Has(a, b, Closed(t, p, s, true)) <==>
          flushed && h.flushError && h.errorTerminal &&
          Outlives(a, b, t, s, Fired(t, p, OnSocketError), Under(w.fd)))
    && (Has(a, b, Fired(t, p, OnClose)) <==> Has(a, b, Closed(t, p, s, true)))
    && (forall what :: what !in FlushCallbacks ==> !Has(a, b, Fired(t, p, what)))
    && Handled(b) == Handled(a) + if flushed && (h.flushedBytes > 0 || h.drained || h.flushError) then 1 else 0
  }

  /** A listening socket is announced, or its error reported. */
  ghost predicate ListenerAnswered(a: seq<Event>, b: seq<Event>, w: Watch, p: nat, s: SocketRef, h: Hooks) {
    var t := w.token;
    var failed := !h.flags.input && (h.flags.err || h.flags.nval || h.flags.hup);
    && (Has(a, b, Fired(t, p, OnSocketListen)) <==> h.flags.input)
    && (Has(a, b, Fired(t, p, OnError)) <==> failed)
    && (Has(a, b, Fired(t, p, OnSocketError)) <==> failed && Outlives(a, b, t, s, Fired(t, p, OnError), Kept))
    && (forall what :: what !in {OnSocketListen, OnError, OnSocketError} ==> !Has(a, b, Fired(t, p, what)))
    && !Has(a, b, Closed(t, p, s, true))
    && (forall fd, cur :: !Has(a, b, Flushed(t, p, fd, cur)))
    && Handled(b) == Handled(a) + if h.flags.input || failed then 1 else 0
  }

  /** A datagram, even an empty one, goes to both datagram callbacks; an error to both
      error callbacks. */
  ghost predicate DatagramAnswered(a: seq<Event>, b: seq<Event>, w: Watch, p: nat, s: SocketRef, h: Hooks) {
    var t := w.token;
    var failed := if h.flags.input then h.received < 0 && !h.wouldBlock else h.flags.err || h.flags.nval;
    && (Has(a, b, Fired(t, p, OnDatagram)) <==> h.flags.input && h.received >= 0)
    && (Has(a, b, Fired(t, p, OnSocketDatagram)) <==>
          h.flags.input && h.received >= 0 && Outlives(a, b, t, s, Fired(t, p, OnDatagram), Kept))
    && (Has(a, b, Fired(t, p, OnError)) <==> failed)
    && (Has(a, b, Fired(t, p, OnSocketError)) <==> failed && Outlives(a, b, t, s, Fired(t, p, OnError), Kept))
    && (forall what :: what !in {OnDatagram, OnSocketDatagram, OnError, OnSocketError} ==>
          !Has(a, b, Fired(t, p, what)))
    && !Has(a, b, Closed(t, p, s, true))
    && (forall fd, cur :: !Has(a, b, Flushed(t, p, fd, cur)))
    && Handled(b) == Handled(a) + if failed || (h.flags.input && h.received >= 0) then 1 else 0
  }

  /** A stream's turn is its read half up to some trace and its write half from there on. */
  ghost predicate StreamAnswered(a: seq<Event>, b: seq<Event>, w: Watch, p: nat, s: SocketRef, h: Hooks) {
    exists m :: a <= m && GoesOn(m, b) && ReadAnswered(a, m, w, p, s, h) && FlushAnswered(m, b, w, p, s, h)
  }

  /** The socket is visited exactly if it is ready and still registered under the watched
      descriptor; a visit is answered by its kind and nothing happens otherwise. */
  ghost predicate TurnAnswered(a: seq<Event>, b: seq<Event>, w: Watch, p: nat, s: SocketRef, h: Hooks) {
    if Ready(h, s) && Survives(a, w.token) && FdOf(a, s) == Some(w.fd) then
      && Has(a, b, VisitOf(w, p))
      && if s.Udp? then DatagramAnswered(a, b, w, p, s, h)
         else if h.listener then ListenerAnswered(a, b, w, p, s, h)
         else if h.step <= 0 || h.step == 2 || h.step == 3 then VerdictAnswered(a, b, w, p, s, h)
         else StreamAnswered(a, b, w, p, s, h)
    else OnlyLookedAt(a, b)
  }

  lemma VerdictOutcome(a: seq<Event>, b: seq<Event>, w: Watch, p: nat, s: SocketRef, h: Hooks)
    requires Fulfils(a, b, w.token, p, s, VerdictDuty(h, w.fd), 1) && Verdicts(h)
    ensures VerdictAnswered(a, b, w, p, s, h)
  {
    hide Has, Outlives, Handled;
  }

  lemma ReadOutcome(a: seq<Event>, b: seq<Event>, w: Watch, p: nat, s: SocketRef, h: Hooks)
    requires var d := ReadDuty(h, w.fd); Fulfils(a, b, w.token, p, s, d, if d == Nothing then 0 else 1)
    ensures ReadAnswered(a, b, w, p, s, h)
  {
    hide Has, Outlives, Handled;
  }

  lemma ListenerOutcome(a: seq<Event>, b: seq<Event>, w: Watch, p: nat, s: SocketRef, h: Hooks)
    requires var d := ListenerDuty(h); Fulfils(a, b, w.token, p, s, d, if d == Nothing then 0 else 1)
    ensures ListenerAnswered(a, b, w, p, s, h)
  {
    hide Has, Outlives, Handled;
  }

  lemma DatagramOutcome(a: seq<Event>, b: seq<Event>, w: Watch, p: nat, s: SocketRef, h: Hooks)
    requires var d := DatagramDuty(h); Fulfils(a, b, w.token, p, s, d, if d == Nothing then 0 else 1)
    ensures DatagramAnswered(a, b, w, p, s, h)
  {
    hide Has, Outlives, Handled;
  }

  /** After looks and a flush, what follows the flush is what happens since the looks. */
  lemma FlushOutcome(a: seq<Event>, b: seq<Event>, w: Watch, p: nat, s: SocketRef, h: Hooks)
    requires FlushesStream(a, b, w, p, s, h)
    ensures FlushAnswered(a, b, w, p, s, h) && GoesOn(a, b)
  {
    hide Has, Outlives, Handled, FlushesStream, FdOf, Survives, OnlyLookedAt;
    var t := w.token;
    FlushLaw(a, b, w, p, s, h);
    UnderIs(a, t, s, w.fd);
    if Meets(a, t, s, Under(w.fd)) && h.queueReady {
      var u := a + [Used(t, p)];
      var e := Flushed(t, p, w.fd, w.fd);
      assert u + [e] == a + [Used(t, p), e];
      HandledSnoc(a, Used(t, p));
      HandledSnoc(u, e);
      OneEvent(u, e, t, s, e, Kept);
      assert GoesOn(u, b) && Has(u, u + [e], e);
      HasSplit(u, u + [e], b, e);
      OneEvent(a, Used(t, p), t, s, e, Kept);
      HasSplit(a, u, b, e);
      MarksAside(a, u, b, w, p, s, Fired(t, p, OnSocketError), Under(w.fd));
      MarksAside(a, u, b, w, p, s, Closed(t, p, s, true), Kept);
      forall what
        ensures Has(a, b, Fired(t, p, what)) <==> Has(u + [e], b, Fired(t, p, what))
        ensures Outlives(a, b, t, s, Fired(t, p, what), Kept) <==>
                Outlives(u + [e], b, t, s, Fired(t, p, what), Kept)
      {
        MarksAside(a, u, b, w, p, s, Fired(t, p, what), Kept);
      }
    } else {
      LooksOnly(a, b, t, p, s, w.fd);
    }
  }

  lemma MarksAside(a: seq<Event>, u: seq<Event>, b: seq<Event>, w: Watch, p: nat, s: SocketRef, e: Event, need: Need)
    requires u == a + [Used(w.token, p)] && GoesOn(u + [Flushed(w.token, p, w.fd, w.fd)], b)
    requires !ByUser(e) && !e.Flushed? && !e.Used?
    ensures var f := u + [Flushed(w.token, p, w.fd, w.fd)];
            && (Has(a, b, e) <==> Has(f, b, e))
            && (e.Fired? ==> (Outlives(a, b, w.token, s, e, need) <==> Outlives(f, b, w.token, s, e, need)))
  {
    hide Has, Outlives;
    MarkAside(u, Flushed(w.token, p, w.fd, w.fd), b, w.token, s, e, need);
    assert GoesOn(u, b);
    MarkAside(a, Used(w.token, p), b, w.token, s, e, need);
  }

  lemma LooksOnly(a: seq<Event>, b: seq<Event>, t: nat, p: nat, s: SocketRef, fd: nat)
    requires OnlyLookedAt(a, b)
    ensures forall what :: !Has(a, b, Fired(t, p, what))
    ensures !Has(a, b, Closed(t, p, s, true)) && !Has(a, b, Flushed(t, p, fd, fd))
    ensures Handled(b) == Handled(a) && GoesOn(a, b)
  {
    HandledQuiet(a, b);
  }

  lemma {:induction false} LooksKeep(a: seq<Event>, u: seq<Event>, t: nat, s: SocketRef)
    requires OnlyLookedAt(a, u)
    ensures FdOf(u, s) == FdOf(a, s) && (Survives(u, t) <==> Survives(a, t))
    decreases |u|
  {
    if a != u {
      var n := |u| - 1;
      LooksKeep(a, u[..n], t, s);
      MarkKeeps(u[..n], u[n], t, s);
      assert u == u[..n] + [u[n]];
    }
  }

  /** Every turn of the dispatch loop is answered, whatever its callbacks do. */
  lemma TurnIsAnswered(a: seq<Event>, b: seq<Event>, w: Watch, p: nat, s: SocketRef, h: Hooks)
    requires Turn(a, b, w, p, s, h)
    ensures TurnAnswered(a, b, w, p, s, h)
  {
    hide Has, Outlives, Handled, Attends, FdOf, Survives, Fulfils, VerdictAnswered, ReadAnswered, FlushAnswered,
         ListenerAnswered, DatagramAnswered, StreamAnswered, Ready, OnlyLookedAt;
    var t := w.token;
    var u :| OnlyLookedAt(a, u) &&
      if Ready(h, s) && Meets(a, t, s, Under(w.fd)) then Attends(u + [VisitOf(w, p)], b, w, p, s, h) else b == u;
    UnderIs(a, t, s, w.fd);
    if Ready(h, s) && Meets(a, t, s, Under(w.fd)) {
      LooksKeep(a, u, t, s);
      MarkKeeps(u, VisitOf(w, p), t, s);
      AttendedOutcome(a, u, b, w, p, s, h);
    }
  }

  /** A visit seen from before the looks at the socket. */
  lemma AttendedOutcome(a: seq<Event>, u: seq<Event>, b: seq<Event>, w: Watch, p: nat, s: SocketRef, h: Hooks)
    requires OnlyLookedAt(a, u) && Attends(u + [VisitOf(w, p)], b, w, p, s, h) && FdOf(u + [VisitOf(w, p)], s).Some?
    ensures Has(a, b, VisitOf(w, p))
    ensures if s.Udp? then DatagramAnswered(a, b, w, p, s, h)
            else if h.listener then ListenerAnswered(a, b, w, p, s, h)
            else if Verdicts(h) then VerdictAnswered(a, b, w, p, s, h)
            else StreamAnswered(a, b, w, p, s, h)
  {
    hide Has, Outlives, Handled, FdOf, Survives, Fulfils, VerdictAnswered, ReadAnswered, FlushAnswered,
         ListenerAnswered, DatagramAnswered, OnlyLookedAt, TakesDatagram, Listens, FollowsVerdict, ReadsStream,
         FlushesStream;
    var t := w.token;
    var v := u + [VisitOf(w, p)];
    if s.Udp? {
      DatagramLaw(v, b, w, p, s, h);
      var d := DatagramDuty(h);
      SinceLooks(a, u, v, b, w, p, s, d, if d == Nothing then 0 else 1);
      DatagramOutcome(a, b, w, p, s, h);
    } else if h.listener {
      ListenerLaw(v, b, w, p, s, h);
      var d := ListenerDuty(h);
      SinceLooks(a, u, v, b, w, p, s, d, if d == Nothing then 0 else 1);
      ListenerOutcome(a, b, w, p, s, h);
    } else {
      var x := v + [Used(t, p)];
      OpenAfterMarks(v, t, p, s);
      if Verdicts(h) {
        VerdictLaw(x, b, w, p, s, h);
        FulfilsAfterMark(v, Used(t, p), b, t, p, s, VerdictDuty(h, w.fd), 1);
        SinceLooks(a, u, v, b, w, p, s, VerdictDuty(h, w.fd), 1);
        VerdictOutcome(a, b, w, p, s, h);
      } else {
        var m :| ReadsStream(x, m, w, p, s, h) && FlushesStream(m, b, w, p, s, h);
        var d := ReadDuty(h, w.fd);
        ReadLaw(x, m, w, p, s, h);
        FulfilsAfterMark(v, Used(t, p), m, t, p, s, d, if d == Nothing then 0 else 1);
        SinceLooks(a, u, v, m, w, p, s, d, if d == Nothing then 0 else 1);
        ReadOutcome(a, m, w, p, s, h);
        FlushOutcome(m, b, w, p, s, h);
        HasSplit(a, m, b, VisitOf(w, p));
      }
    }
  }

  lemma SinceLooks(a: seq<Event>, u: seq<Event>, v: seq<Event>, b: seq<Event>, w: Watch, p: nat, s: SocketRef, d: Duty,
                   counted: nat)
    requires OnlyLookedAt(a, u) && v == u + [VisitOf(w, p)] && Fulfils(v, b, w.token, p, s, d, counted)
    ensures Fulfils(a, b, w.token, p, s, d, counted) && Has(a, b, VisitOf(w, p)) && a <= b
  {
    hide Fulfils, Has;
    var t := w.token;
    FulfilsAfterMark(u, VisitOf(w, p), b, t, p, s, d, counted);
    FulfilsAfterLooks(a, u, b, t, p, s, d, counted);
    assert GoesOn(v, b) by { FulfilsGoesOn(v, b, t, p, s, d, counted); }
    assert b[|u|] == VisitOf(w, p);
    VisitIsThere(a, b, |u|);
  }

  lemma FulfilsGoesOn(a: seq<Event>, b: seq<Event>, t: nat, p: nat, s: SocketRef, d: Duty, counted: nat)
    requires Fulfils(a, b, t, p, s, d, counted)
    ensures GoesOn(a, b)
  {
  }

  lemma VisitIsThere(a: seq<Event>, b: seq<Event>, i: nat)
    requires |a| <= i < |b|
    ensures Has(a, b, b[i])
  {
  }

  // ----- the turns of a poll -----------------------------------------------

  /** The traces before, between and after the turns of a dispatch loop. */
  ghost predicate Turns(cuts: seq<seq<Event>>, ws: seq<Watch>, p: nat, socks: seq<SocketRef>, hooks: nat -> Hooks) {
    && |cuts| == |ws| + 1 && |socks| == |ws|
    && forall k, l :: 0 <= k < |ws| && l == k + 1 ==> Turn(cuts[k], cuts[l], ws[k], p, socks[k], hooks(k))
  }

  lemma TurnsMore(cuts: seq<seq<Event>>, next: seq<Event>, ws: seq<Watch>, p: nat, socks: seq<SocketRef>,
                  hooks: nat -> Hooks, at: nat)
    requires at < |ws| == |socks| && Turns(cuts, ws[..at], p, socks[..at], hooks)
    requires Turn(cuts[at], next, ws[at], p, socks[at], hooks(at))
    ensures Turns(cuts + [next], ws[..at + 1], p, socks[..at + 1], hooks)
  {
    hide Turn;
  }

  /** Each turn of a poll is answered. */
  lemma TurnsAreAnswered(cuts: seq<seq<Event>>, ws: seq<Watch>, p: nat, socks: seq<SocketRef>, hooks: nat -> Hooks,
                         k: nat)
    requires Turns(cuts, ws, p, socks, hooks) && k < |ws|
    ensures TurnAnswered(cuts[k], cuts[k + 1], ws[k], p, socks[k], hooks(k))
  {
    hide Turn, TurnAnswered;
    assert Turn(cuts[k], cuts[k + 1], ws[k], p, socks[k], hooks(k));
    TurnIsAnswered(cuts[k], cuts[k + 1], ws[k], p, socks[k], hooks(k));
  }

  ghost predicate Ascending(cuts: seq<seq<Event>>) {
    forall k, l :: 0 <= k < l < |cuts| ==> cuts[k] <= cuts[l]
  }

  lemma AscendingMore(cuts: seq<seq<Event>>, next: seq<Event>)
    requires Ascending(cuts) && (cuts != [] ==> cuts[|cuts| - 1] <= next)
    ensures Ascending(cuts + [next])
  {
    var more := cuts + [next];
    forall k, l | 0 <= k < l < |more|
      ensures more[k] <= more[l]
    {
      if l == |cuts| && k < |cuts| - 1 {
        assert cuts[k] <= cuts[|cuts| - 1];
      }
    }
  }

  /** The sockets behind the watched tokens. */
  function SocketsOf(ws: seq<Watch>, tokens: seq<Registration>): seq<SocketRef> {
    seq(|ws|, k requires 0 <= k < |ws| => if ws[k].token < |tokens| then tokens[ws[k].token].socket else Tcp(0))
  }

  lemma SocketsOfAre(ws: seq<Watch>, tokens: seq<Registration>)
    requires forall w :: w in ws ==> w.token < |tokens|
    ensures |SocketsOf(ws, tokens)| == |ws|
    ensures forall k :: 0 <= k < |ws| ==>
              ws[k].token < |tokens| && SocketsOf(ws, tokens)[k] == tokens[ws[k].token].socket
  {
    forall k | 0 <= k < |ws|
      ensures ws[k].token < |tokens|
    {
      assert ws[k] in ws;
    }
  }

  lemma NothingLooked(a: seq<Event>)
    ensures OnlyLookedAt(a, a)
  {
  }

  // ----- counting ----------------------------------------------------------

  lemma LooksCount(a: seq<Event>, u: seq<Event>)
    requires OnlyLookedAt(a, u)
    ensures Handled(u) == Handled(a)
  {
    HandledQuiet(a, u);
  }

  lemma ReadCountsTo(a: seq<Event>, b: seq<Event>, w: Watch, p: nat, s: SocketRef, h: Hooks)
    requires ReadsStream(a, b, w, p, s, h) && FdOf(a, s).Some?
    ensures Handled(b) == Handled(a) + if ReadDuty(h, w.fd) == Nothing then 0 else 1
  {
    hide ReadsStream, ReadDuty, FdOf, Has, Outlives, Handled;
    ReadLaw(a, b, w, p, s, h);
  }

  lemma FlushCountsTo(a: seq<Event>, b: seq<Event>, w: Watch, p: nat, s: SocketRef, h: Hooks)
    requires FlushesStream(a, b, w, p, s, h) && Meets(a, w.token, s, Under(w.fd)) && h.queueReady
    ensures Handled(b) == Handled(a) + if FlushCounts(h) then 1 else 0
  {
    hide FlushesStream, Meets, FdOf, Has, Outlives, Handled, FlushDuty;
    FlushLaw(a, b, w, p, s, h);
    var x, y := Used(w.token, p), Flushed(w.token, p, w.fd, w.fd);
    assert a + [x] + [y] == a + [x, y];
    HandledSnoc(a, x);
    HandledSnoc(a + [x], y);
  }

  lemma VerdictCountsTo(a: seq<Event>, b: seq<Event>, w: Watch, p: nat, s: SocketRef, h: Hooks)
    requires FollowsVerdict(a, b, w, p, s, h) && FdOf(a, s).Some? && Verdicts(h)
    ensures Handled(b) == Handled(a) + 1
  {
    hide FollowsVerdict, VerdictDuty, FdOf, Has, Outlives, Handled;
    VerdictLaw(a, b, w, p, s, h);
  }

  lemma ListenerCountsTo(a: seq<Event>, b: seq<Event>, w: Watch, p: nat, s: SocketRef, h: Hooks)
    requires Listens(a, b, w, p, s, h)
    ensures Handled(b) == Handled(a) + if ListenerDuty(h) == Nothing then 0 else 1
  {
    hide Listens, ListenerDuty, FdOf, Has, Outlives, Handled;
    ListenerLaw(a, b, w, p, s, h);
  }

  lemma DatagramCountsTo(a: seq<Event>, b: seq<Event>, w: Watch, p: nat, s: SocketRef, h: Hooks)
    requires TakesDatagram(a, b, w, p, s, h)
    ensures Handled(b) == Handled(a) + if DatagramDuty(h) == Nothing then 0 else 1
  {
    hide TakesDatagram, DatagramDuty, FdOf, Has, Outlives, Handled;
    DatagramLaw(a, b, w, p, s, h);
  }
}
