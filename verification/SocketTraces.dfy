/** The history of the readiness poller.  Tokens outlive their registration, so they are
    numbered in the order of their creation and never reused.  A trace records every
    operation of user code, registration, retirement, use of a socket through a snapshot
    token, close and callback; what the poller promises is an invariant of that trace over
    the life of the set. */
module SocketTraces {
  import Transport
  import opened Wrappers

  datatype SocketRef = Tcp(id: nat) | Udp(id: nat)

  datatype Registration = Registration(socket: SocketRef, active: bool)

  /** Callbacks of the socket itself (On...) and of the set (OnSocket...). */
  datatype Callback =
    | OnConnect | OnData | OnClose | OnError | OnDrain | OnDatagram
    | OnSocketConnect | OnSocketData | OnSocketClose | OnSocketError | OnSocketDrain
    | OnSocketListen | OnSocketDatagram

  /** What user code may do from a callback, or between polls. */
  datatype UserOp =
    | Add(socket: SocketRef)
    | Remove(socket: SocketRef)
    | RemoveAt(index: nat)
    | CloseSocket(socket: SocketRef)
    | OpenSocket(socket: SocketRef, fd: nat)

  /** poll is the number of polls begun when the event happened.  A visit and a flush
      also record the descriptor the snapshot took down and the socket's current one, a
      close by the poller whether there was a descriptor to close.  Counted is one more
      handled event of the poll's answer. */
  datatype Event =
    | Did(op: UserOp)
    | Registered(token: nat, poll: nat)
    | Retired(token: nat)
    | Visited(token: nat, poll: nat, fd: nat, current: nat)
    | Flushed(token: nat, poll: nat, fd: nat, current: nat)
    | Used(token: nat, poll: nat)
    | Closed(token: nat, poll: nat, socket: SocketRef, open: bool)
    | Fired(token: nat, poll: nat, what: Callback)
    | Counted(token: nat, poll: nat)

  /** What the hooks of one visited socket answer, all of it arbitrary. */
  datatype Hooks = Hooks(
    flags: Transport.Flags,
    due: bool,             // poll_timeout_ms() == 0
    listener: bool,
    step: int,             // poll_step
    readReady: bool,
    received: int,         // poll_receive or recvfrom
    wouldBlock: bool,
    errorTerminal: bool,
    queueReady: bool,
    flushedBytes: nat,
    flushError: bool,
    drained: bool)

  datatype Watch = Watch(token: nat, fd: nat)

  // ----- the trace ---------------------------------------------------------

  /** An operation of user code, or what it does to the registrations. */
  predicate ByUser(e: Event) {
    e.Did? || e.Registered? || e.Retired?
  }

  /** The event involves a socket through token t. */
  predicate Mentions(e: Event, t: nat) {
    !ByUser(e) && e.token == t
  }

  /** A retired token is never used again. */
  ghost predicate RetiredIsFinal(trace: seq<Event>) {
    forall i, j :: 0 <= i < j < |trace| && trace[i].Retired? ==> !Mentions(trace[j], trace[i].token)
  }

  /** A socket registered during a poll is first served by a later one. */
  ghost predicate NewcomersWait(trace: seq<Event>) {
    forall i, j :: 0 <= i < |trace| && 0 <= j < |trace| && trace[i].Registered? && Mentions(trace[j], trace[i].token)
      ==> trace[i].poll < trace[j].poll
  }

  /** No token is visited twice in one poll. */
  ghost predicate VisitedOnce(trace: seq<Event>) {
    forall i, j :: 0 <= i < j < |trace| && trace[i].Visited? && trace[j].Visited? && trace[i].token == trace[j].token
      ==> trace[i].poll < trace[j].poll
  }

  predicate Serves(e: Event) {
    e.Visited? || e.Flushed?
  }

  /** A socket whose descriptor has changed since the snapshot is not served. */
  ghost predicate ServedAsWatched(trace: seq<Event>) {
    forall i :: 0 <= i < |trace| && Serves(trace[i]) ==> trace[i].fd == trace[i].current
  }

  ghost predicate Clean(trace: seq<Event>) {
    RetiredIsFinal(trace) && NewcomersWait(trace) && VisitedOnce(trace) && ServedAsWatched(trace)
  }

  /** The trace and the tokens tell the same story. */
  ghost predicate Agrees(trace: seq<Event>, tokens: seq<Registration>, born: seq<nat>, polls: nat) {
    && |born| == |tokens|
    && (forall t :: 0 <= t < |tokens| ==> born[t] <= polls)
    && (forall t :: 0 <= t < |tokens| ==> (Retired(t) in trace <==> !tokens[t].active))
    && (forall i :: 0 <= i < |trace| && !trace[i].Did? ==> trace[i].token < |tokens|)
    && (forall i :: 0 <= i < |trace| && trace[i].Registered? ==> trace[i].poll == born[trace[i].token])
    && (forall i :: 0 <= i < |trace| && !ByUser(trace[i]) ==>
          born[trace[i].token] < trace[i].poll <= polls)
  }

  /** The token has not been visited in this poll. */
  ghost predicate Fresh(trace: seq<Event>, t: nat, polls: nat) {
    forall i :: 0 <= i < |trace| && trace[i].Visited? && trace[i].token == t ==> trace[i].poll < polls
  }

  lemma ServeClean(trace: seq<Event>, tokens: seq<Registration>, born: seq<nat>, polls: nat, e: Event)
    requires Clean(trace) && Agrees(trace, tokens, born, polls)
    requires !ByUser(e) && e.token < |tokens| && tokens[e.token].active && born[e.token] < e.poll == polls
    requires e.Visited? ==> Fresh(trace, e.token, polls)
    requires Serves(e) ==> e.fd == e.current
    ensures Clean(trace + [e])
  {
    assert Retired(e.token) !in trace;
    assert forall i :: 0 <= i < |trace| && trace[i].Retired? ==> trace[i] == Retired(trace[i].token);
  }

  lemma ServeAgrees(trace: seq<Event>, tokens: seq<Registration>, born: seq<nat>, polls: nat, e: Event)
    requires Agrees(trace, tokens, born, polls)
    requires !ByUser(e) && e.token < |tokens| && born[e.token] < e.poll == polls
    ensures Agrees(trace + [e], tokens, born, polls)
  {
    var trace' := trace + [e];
    forall t | 0 <= t < |tokens|
      ensures Retired(t) in trace' <==> !tokens[t].active
    {
      assert Retired(t) in trace' <==> Retired(t) in trace;
    }
  }

  /** Serving an active token born before this poll keeps the trace clean. */
  lemma ServeKeeps(trace: seq<Event>, tokens: seq<Registration>, born: seq<nat>, polls: nat, e: Event)
    requires Clean(trace) && Agrees(trace, tokens, born, polls)
    requires !ByUser(e) && e.token < |tokens| && tokens[e.token].active && born[e.token] < e.poll == polls
    requires e.Visited? ==> Fresh(trace, e.token, polls)
    requires Serves(e) ==> e.fd == e.current
    ensures Clean(trace + [e]) && Agrees(trace + [e], tokens, born, polls)
  {
    hide Clean, Agrees;
    ServeClean(trace, tokens, born, polls, e);
    ServeAgrees(trace, tokens, born, polls, e);
  }

  lemma RegisterKeeps(trace: seq<Event>, tokens: seq<Registration>, born: seq<nat>, polls: nat, r: Registration)
    requires Clean(trace) && Agrees(trace, tokens, born, polls) && r.active
    ensures var e := Registered(|tokens|, polls);
            Clean(trace + [e]) && Agrees(trace + [e], tokens + [r], born + [polls], polls)
  {
    var e := Registered(|tokens|, polls);
    var trace' := trace + [e];
    forall t | 0 <= t < |tokens| + 1
      ensures Retired(t) in trace' <==> !(tokens + [r])[t].active
    {
      assert Retired(t) in trace' <==> Retired(t) in trace;
    }
  }

  lemma DidKeeps(trace: seq<Event>, tokens: seq<Registration>, born: seq<nat>, polls: nat, op: UserOp)
    requires Clean(trace) && Agrees(trace, tokens, born, polls)
    ensures Clean(trace + [Did(op)]) && Agrees(trace + [Did(op)], tokens, born, polls)
  {
    var trace' := trace + [Did(op)];
    forall t | 0 <= t < |tokens|
      ensures Retired(t) in trace' <==> !tokens[t].active
    {
      assert Retired(t) in trace' <==> Retired(t) in trace;
    }
  }

  lemma RetireKeeps(trace: seq<Event>, tokens: seq<Registration>, born: seq<nat>, polls: nat, t: nat)
    requires Clean(trace) && Agrees(trace, tokens, born, polls) && t < |tokens|
    ensures var e := Retired(t);
            Clean(trace + [e]) && Agrees(trace + [e], tokens[t := tokens[t].(active := false)], born, polls)
  {
    var e := Retired(t);
    var trace' := trace + [e];
    forall u | 0 <= u < |tokens|
      ensures Retired(u) in trace' <==> !tokens[t := tokens[t].(active := false)][u].active
    {
      assert trace'[|trace|] == e;
      assert Retired(u) in trace' <==> Retired(u) in trace || u == t;
    }
  }

  // ----- the registrations -------------------------------------------------

  /** entries hold the active tokens of one kind, one token per socket. */
  ghost predicate Listed(tokens: seq<Registration>, entries: seq<nat>, tcp: bool) {
    && (forall i :: 0 <= i < |entries| ==>
          entries[i] < |tokens| && tokens[entries[i]].active && tokens[entries[i]].socket.Tcp? == tcp)
    && (forall i, j :: 0 <= i < j < |entries| ==> tokens[entries[i]].socket != tokens[entries[j]].socket)
  }

  lemma ListedActive(tokens: seq<Registration>, entries: seq<nat>, tcp: bool, index: nat)
    requires Listed(tokens, entries, tcp) && index < |entries|
    ensures entries[index] < |tokens| && tokens[entries[index]].active
  {
  }

  ghost predicate AllListed(tokens: seq<Registration>, tcp: seq<nat>, udp: seq<nat>) {
    forall t :: 0 <= t < |tokens| && tokens[t].active ==> t in tcp || t in udp
  }

  /** At most one active token exists for a socket. */
  lemma OneTokenPerSocket(tokens: seq<Registration>, tcp: seq<nat>, udp: seq<nat>, t: nat, u: nat)
    requires Listed(tokens, tcp, true) && Listed(tokens, udp, false) && AllListed(tokens, tcp, udp)
    requires t < |tokens| && u < |tokens| && tokens[t].active && tokens[u].active
    requires tokens[t].socket == tokens[u].socket
    ensures t == u
  {
    var entries := if tokens[t].socket.Tcp? then tcp else udp;
    assert t in entries && u in entries;
    var i :| 0 <= i < |entries| && entries[i] == t;
    var j :| 0 <= j < |entries| && entries[j] == u;
  }

  /** How the tokens may change while user code runs: new ones appear, old ones
      only ever lose their registration, and history is only appended to. */
  ghost predicate Evolves(tokens: seq<Registration>, born: seq<nat>, trace: seq<Event>,
                          tokens': seq<Registration>, born': seq<nat>, trace': seq<Event>)
  {
    && |tokens| <= |tokens'| && |born| <= |born'| && trace <= trace'
    && (forall t :: 0 <= t < |born| ==> born'[t] == born[t])
    && (forall t :: 0 <= t < |tokens| ==>
          tokens'[t].socket == tokens[t].socket && (tokens'[t].active ==> tokens[t].active))
  }

  // ----- descriptors -------------------------------------------------------

  /** The descriptor a socket has after what the trace tells, if it is open. */
  function FdOf(trace: seq<Event>, socket: SocketRef): Option<nat> {
    if trace == [] then None
    else
      match trace[|trace| - 1]
      case Did(OpenSocket(s, fd)) => if s == socket then Some(fd) else FdOf(trace[..|trace| - 1], socket)
      case Did(CloseSocket(s)) => if s == socket then None else FdOf(trace[..|trace| - 1], socket)
      case Closed(_, _, s, _) => if s == socket then None else FdOf(trace[..|trace| - 1], socket)
      case _ => FdOf(trace[..|trace| - 1], socket)
  }

  /** The descriptors are those the trace tells of. */
  ghost predicate Tracks(trace: seq<Event>, fds: map<SocketRef, nat>) {
    forall s :: (s in fds <==> FdOf(trace, s).Some?) && (s in fds ==> FdOf(trace, s) == Some(fds[s]))
  }

  /** The event changes no descriptor. */
  predicate KeepsFds(e: Event) {
    !e.Closed? && (e.Did? ==> !e.op.OpenSocket? && !e.op.CloseSocket?)
  }

  lemma FdOfSnoc(trace: seq<Event>, e: Event, socket: SocketRef)
    ensures KeepsFds(e) ==> FdOf(trace + [e], socket) == FdOf(trace, socket)
    ensures e.Did? && e.op.OpenSocket? ==>
              FdOf(trace + [e], socket) == if e.op.socket == socket then Some(e.op.fd) else FdOf(trace, socket)
    ensures e.Did? && e.op.CloseSocket? ==>
              FdOf(trace + [e], socket) == if e.op.socket == socket then None else FdOf(trace, socket)
    ensures e.Closed? ==>
              FdOf(trace + [e], socket) == if e.socket == socket then None else FdOf(trace, socket)
  {
    assert (trace + [e])[..|trace|] == trace;
  }

  /** What an event does to the descriptors. */
  function FdsAfter(fds: map<SocketRef, nat>, e: Event): map<SocketRef, nat> {
    match e
    case Did(OpenSocket(s, fd)) => fds[s := fd]
    case Did(CloseSocket(s)) => fds - {s}
    case Closed(_, _, s, _) => fds - {s}
    case _ => fds
  }

  lemma TracksMore(trace: seq<Event>, fds: map<SocketRef, nat>, e: Event)
    requires Tracks(trace, fds)
    ensures Tracks(trace + [e], FdsAfter(fds, e))
  {
    hide FdOf;
    forall s
      ensures var fds' := FdsAfter(fds, e);
              (s in fds' <==> FdOf(trace + [e], s).Some?) && (s in fds' ==> FdOf(trace + [e], s) == Some(fds'[s]))
    {
      FdOfSnoc(trace, e, s);
    }
  }

  /** Exactly the registration of the socket is gone. */
  ghost predicate Unregisters(tokens: seq<Registration>, tokens': seq<Registration>, socket: SocketRef) {
    && |tokens'| == |tokens|
    && forall t :: 0 <= t < |tokens| ==>
         && tokens'[t].socket == tokens[t].socket
         && (tokens'[t].active <==> tokens[t].active && tokens[t].socket != socket)
  }

  /** The one active token of a socket is deactivated. */
  lemma UnregistersOne(tokens: seq<Registration>, tcp: seq<nat>, udp: seq<nat>, t: nat, socket: SocketRef)
    requires Listed(tokens, tcp, true) && Listed(tokens, udp, false) && AllListed(tokens, tcp, udp)
    requires t < |tokens| && tokens[t].active && tokens[t].socket == socket
    ensures Unregisters(tokens, tokens[t := tokens[t].(active := false)], socket)
  {
    hide Listed, AllListed;
    forall u | 0 <= u < |tokens| && tokens[u].active && tokens[u].socket == socket
      ensures u == t
    {
      OneTokenPerSocket(tokens, tcp, udp, t, u);
    }
  }

  lemma NobodyRegistered(tokens: seq<Registration>, socket: SocketRef)
    requires forall t :: 0 <= t < |tokens| && tokens[t].active ==> tokens[t].socket != socket
    ensures Unregisters(tokens, tokens, socket)
  {
  }

  predicate AnyFlag(f: Transport.Flags) {
    f.input || f.output || f.hup || f.err || f.nval
  }

  function Without<T>(s: seq<T>, index: nat): seq<T>
    requires index < |s|
  {
    s[..index] + s[index + 1..]
  }

  lemma NewListed(tokens: seq<Registration>, entries: seq<nat>, isTcp: bool, r: Registration)
    requires Listed(tokens, entries, isTcp) && r.active
    requires forall t :: 0 <= t < |tokens| && tokens[t].active ==> tokens[t].socket != r.socket
    ensures Listed(tokens + [r], entries, isTcp)
    ensures r.socket.Tcp? == isTcp ==> Listed(tokens + [r], entries + [|tokens|], isTcp)
  {
    assert forall t :: 0 <= t < |tokens| ==> (tokens + [r])[t] == tokens[t];
  }

  lemma RegisterLists(tokens: seq<Registration>, tcp: seq<nat>, udp: seq<nat>, socket: SocketRef)
    requires Listed(tokens, tcp, true) && Listed(tokens, udp, false) && AllListed(tokens, tcp, udp)
    requires forall t :: 0 <= t < |tokens| && tokens[t].active ==> tokens[t].socket != socket
    ensures var tokens' := tokens + [Registration(socket, true)];
            var tcp' := if socket.Tcp? then tcp + [|tokens|] else tcp;
            var udp' := if socket.Tcp? then udp else udp + [|tokens|];
            Listed(tokens', tcp', true) && Listed(tokens', udp', false) && AllListed(tokens', tcp', udp')
  {
    hide Listed;
    NewListed(tokens, tcp, true, Registration(socket, true));
    NewListed(tokens, udp, false, Registration(socket, true));
  }

  lemma WithoutListed(tokens: seq<Registration>, entries: seq<nat>, isTcp: bool, index: nat, t: nat)
    requires Listed(tokens, entries, isTcp) && index < |entries| && t == entries[index]
    ensures t < |tokens| && Listed(tokens[t := tokens[t].(active := false)], Without(entries, index), isTcp)
    ensures forall u :: u in entries && u != t ==> u in Without(entries, index)
  {
    var rest := Without(entries, index);
    assert forall i :: 0 <= i < |rest| ==> rest[i] == entries[if i < index then i else i + 1];
    forall u | u in entries && u != t
      ensures u in rest
    {
      var i :| 0 <= i < |entries| && entries[i] == u;
      assert rest[if i < index then i else i - 1] == u;
    }
  }

  lemma OtherListed(tokens: seq<Registration>, entries: seq<nat>, isTcp: bool, t: nat)
    requires Listed(tokens, entries, isTcp) && t < |tokens| && tokens[t].socket.Tcp? != isTcp
    ensures Listed(tokens[t := tokens[t].(active := false)], entries, isTcp)
  {
  }

  lemma RetireLists(tokens: seq<Registration>, tcp: seq<nat>, udp: seq<nat>, fromTcp: bool, index: nat)
    requires Listed(tokens, tcp, true) && Listed(tokens, udp, false) && AllListed(tokens, tcp, udp)
    requires index < (if fromTcp then |tcp| else |udp|)
    ensures var t := (if fromTcp then tcp else udp)[index];
            var tcp' := if fromTcp then Without(tcp, index) else tcp;
            var udp' := if fromTcp then udp else Without(udp, index);
            && t < |tokens|
            && var tokens' := tokens[t := tokens[t].(active := false)];
               Listed(tokens', tcp', true) && Listed(tokens', udp', false) && AllListed(tokens', tcp', udp')
  {
    hide Without;
    var t := (if fromTcp then tcp else udp)[index];
    if fromTcp {
      WithoutListed(tokens, tcp, true, index, t);
      OtherListed(tokens, udp, false, t);
    } else {
      WithoutListed(tokens, udp, false, index, t);
      OtherListed(tokens, tcp, true, t);
    }
  }

  lemma WithoutConcat<T>(a: seq<T>, b: seq<T>, index: nat)
    requires index < |a| + |b|
    ensures Without(a + b, index) == if index < |a| then Without(a, index) + b else a + Without(b, index - |a|)
  {
  }

  /** From trace to trace' tokens were registered and retired, nothing else. */
  ghost predicate OnlyRegistry(trace: seq<Event>, trace': seq<Event>) {
    trace <= trace' && forall i :: |trace| <= i < |trace'| ==> trace'[i].Registered? || trace'[i].Retired?
  }

  lemma NothingRegistered()
    ensures Listed([], [], true) && Listed([], [], false) && AllListed([], [], [])
    ensures Agrees([], [], [], 0) && Clean([]) && Tracks([], map[])
  {
    hide FdOf, Tracks;
    NothingTraced();
    NothingTracked();
  }

  lemma NothingTracked()
    ensures Tracks([], map[])
  {
  }

  lemma NothingTraced()
    ensures Clean([])
  {
  }

  /** Among the events from trace to trace', every use and callback is about token t,
      nothing is visited or flushed, and the set-level close callback appears only if
      allowed. */
  ghost predicate About(trace: seq<Event>, trace': seq<Event>, t: nat, closes: bool) {
    && trace <= trace'
    && forall i :: |trace| <= i < |trace'| && !ByUser(trace'[i]) ==>
         && trace'[i].token == t && !Serves(trace'[i])
         && (trace'[i].Fired? && trace'[i].what.OnSocketClose? ==> closes)
  }

  /** The same for a visit: what is visited or flushed is the watched descriptor. */
  ghost predicate Serving(trace: seq<Event>, trace': seq<Event>, w: Watch, closes: bool) {
    && trace <= trace'
    && forall i :: |trace| <= i < |trace'| && !ByUser(trace'[i]) ==>
         && trace'[i].token == w.token && (Serves(trace'[i]) ==> trace'[i].fd == w.fd)
         && (trace'[i].Fired? && trace'[i].what.OnSocketClose? ==> closes)
  }

  /** Nothing but looking at the socket happened. */
  ghost predicate OnlyLookedAt(trace: seq<Event>, trace': seq<Event>) {
    trace <= trace' && forall i :: |trace| <= i < |trace'| ==> trace'[i].Used?
  }

  lemma AboutThen(a: seq<Event>, b: seq<Event>, c: seq<Event>, t: nat, x: bool, y: bool)
    requires About(a, b, t, x) && About(b, c, t, y)
    ensures About(a, c, t, x || y)
  {
    forall i | |a| <= i < |c| && !ByUser(c[i])
      ensures c[i].token == t && !Serves(c[i]) && (c[i].Fired? && c[i].what.OnSocketClose? ==> x || y)
    {
      if i < |b| {
        assert c[i] == b[i];
      }
    }
  }

  lemma AboutAllows(a: seq<Event>, b: seq<Event>, t: nat, x: bool, y: bool)
    requires About(a, b, t, x) && (x ==> y)
    ensures About(a, b, t, y)
  {
  }

  lemma FiredAbout(a: seq<Event>, b: seq<Event>, t: nat, polls: nat, what: Callback)
    requires a <= b && |b| > |a| && b[|a|] == Fired(t, polls, what)
    requires forall i :: |a| < i < |b| ==> ByUser(b[i])
    ensures About(a, b, t, what.OnSocketClose?)
  {
  }

  lemma AboutServes(a: seq<Event>, b: seq<Event>, w: Watch, closes: bool)
    requires About(a, b, w.token, closes)
    ensures Serving(a, b, w, closes)
  {
  }

  lemma AboutThenServing(a: seq<Event>, b: seq<Event>, c: seq<Event>, w: Watch, x: bool, y: bool)
    requires About(a, b, w.token, x) && Serving(b, c, w, y)
    ensures Serving(a, c, w, x || y)
  {
    forall i | |a| <= i < |c| && !ByUser(c[i])
      ensures && c[i].token == w.token && (Serves(c[i]) ==> c[i].fd == w.fd)
              && (c[i].Fired? && c[i].what.OnSocketClose? ==> x || y)
    {
      if i < |b| {
        assert c[i] == b[i];
      }
    }
  }

  lemma NoteAbout(a: seq<Event>, e: Event)
    requires e.Used? || e.Counted?
    ensures About(a, a + [e], e.token, false)
  {
  }

  lemma AboutNothing(a: seq<Event>, t: nat, closes: bool)
    ensures About(a, a, t, closes)
  {
  }

  /** A flush after a look, and what follows it. */
  lemma FlushServes(a: seq<Event>, b: seq<Event>, w: Watch, p: nat)
    requires About(a + [Used(w.token, p), Flushed(w.token, p, w.fd, w.fd)], b, w.token, false)
    ensures Serving(a, b, w, false)
  {
    var c := a + [Used(w.token, p), Flushed(w.token, p, w.fd, w.fd)];
    forall i | |a| <= i < |b| && !ByUser(b[i])
      ensures && b[i].token == w.token && (Serves(b[i]) ==> b[i].fd == w.fd)
              && (b[i].Fired? ==> !b[i].what.OnSocketClose?)
    {
      if i < |c| {
        assert b[i] == c[i];
      }
    }
  }

  /** Looks, a visit, and what the visit leads to. */
  lemma VisitServes(a: seq<Event>, u: seq<Event>, b: seq<Event>, w: Watch, p: nat, closes: bool)
    requires Serving(a, u, w, closes) && Serving(u + [VisitOf(w, p)], b, w, closes)
    ensures Serving(a, b, w, closes)
  {
    var c := u + [VisitOf(w, p)];
    forall i | |a| <= i < |b| && !ByUser(b[i])
      ensures && b[i].token == w.token && (Serves(b[i]) ==> b[i].fd == w.fd)
              && (b[i].Fired? && b[i].what.OnSocketClose? ==> closes)
    {
      if i < |c| {
        assert b[i] == c[i];
        if i < |u| {
          assert b[i] == u[i];
        }
      }
    }
  }

  lemma LooksKeepFresh(a: seq<Event>, u: seq<Event>, t: nat, polls: nat)
    requires OnlyLookedAt(a, u) && Fresh(a, t, polls)
    ensures Fresh(u, t, polls)
  {
    forall i | 0 <= i < |u| && u[i].Visited? && u[i].token == t
      ensures u[i].poll < polls
    {
      assert i < |a| && u[i] == a[i];
    }
  }

  /** Where a watched stream may be reported closed: poll_step said the peer has
      closed in order, or the stream has ended. */
  predicate MayClose(h: Hooks) {
    h.step == 3 || (h.step > 0 && h.step != 2 && h.readReady && h.received == 0)
  }

  /** The registrations a poll watches: those with a descriptor, in list order. */
  function WatchList(entries: seq<nat>, tokens: seq<Registration>, fds: map<SocketRef, nat>): seq<Watch>
    requires forall i :: 0 <= i < |entries| ==> entries[i] < |tokens|
  {
    if entries == [] then []
    else
      var before := WatchList(entries[..|entries| - 1], tokens, fds);
      var t := entries[|entries| - 1];
      if tokens[t].socket in fds then before + [Watch(t, fds[tokens[t].socket])] else before
  }

  ghost predicate DistinctTokens(ws: seq<Watch>) {
    forall i, j :: 0 <= i < j < |ws| ==> ws[i].token != ws[j].token
  }

  lemma {:induction false} WatchListTokens(entries: seq<nat>, tokens: seq<Registration>, fds: map<SocketRef, nat>)
    requires forall i :: 0 <= i < |entries| ==> entries[i] < |tokens|
    requires forall i, j :: 0 <= i < j < |entries| ==> entries[i] != entries[j]
    ensures forall w :: w in WatchList(entries, tokens, fds) ==> w.token in entries
    ensures DistinctTokens(WatchList(entries, tokens, fds))
  {
    if entries != [] {
      var n := |entries| - 1;
      var first := entries[..n];
      WatchListTokens(first, tokens, fds);
      var before := WatchList(first, tokens, fds);
      assert entries == first + [entries[n]];
      assert entries[n] !in first;
      forall i | 0 <= i < |before|
        ensures before[i].token != entries[n]
      {
        assert before[i] in before;
      }
    }
  }

  /** An open socket among the entries is watched, under its descriptor. */
  lemma {:induction false} WatchListHolds(entries: seq<nat>, tokens: seq<Registration>, fds: map<SocketRef, nat>,
                                          i: nat)
    requires forall i :: 0 <= i < |entries| ==> entries[i] < |tokens|
    requires i < |entries| && tokens[entries[i]].socket in fds
    ensures Watch(entries[i], fds[tokens[entries[i]].socket]) in WatchList(entries, tokens, fds)
  {
    if i < |entries| - 1 {
      WatchListHolds(entries[..|entries| - 1], tokens, fds, i);
    }
  }

  ghost predicate Earlier(entries: seq<nat>, t: nat, u: nat) {
    exists m, n :: 0 <= m < n < |entries| && entries[m] == t && entries[n] == u
  }

  lemma {:induction false} WatchListFrom(entries: seq<nat>, tokens: seq<Registration>, fds: map<SocketRef, nat>, i: nat)
    requires forall i :: 0 <= i < |entries| ==> entries[i] < |tokens|
    requires i < |WatchList(entries, tokens, fds)|
    ensures WatchList(entries, tokens, fds)[i].token in entries
  {
    var first := entries[..|entries| - 1];
    if i < |WatchList(first, tokens, fds)| {
      WatchListFrom(first, tokens, fds, i);
    }
  }

  /** The watched sockets are in the order of the entries. */
  lemma {:induction false} WatchListOrder(entries: seq<nat>, tokens: seq<Registration>, fds: map<SocketRef, nat>,
                                          i: nat, j: nat)
    requires forall i :: 0 <= i < |entries| ==> entries[i] < |tokens|
    requires i < j < |WatchList(entries, tokens, fds)|
    ensures Earlier(entries, WatchList(entries, tokens, fds)[i].token, WatchList(entries, tokens, fds)[j].token)
  {
    var last := |entries| - 1;
    var first := entries[..last];
    var before := WatchList(first, tokens, fds);
    var t, u := WatchList(entries, tokens, fds)[i].token, WatchList(entries, tokens, fds)[j].token;
    if j < |before| {
      WatchListOrder(first, tokens, fds, i, j);
      var m, n :| 0 <= m < n < last && first[m] == t && first[n] == u;
      assert entries[m] == t && entries[n] == u;
    } else {
      WatchListFrom(first, tokens, fds, i);
      var m :| 0 <= m < last && first[m] == t;
      assert entries[m] == t && entries[last] == u;
    }
  }

  /** Every event from trace to trace' that involves a token involves one of entries. */
  ghost predicate Involves(trace: seq<Event>, trace': seq<Event>, entries: seq<nat>) {
    && trace <= trace'
    && forall i :: |trace| <= i < |trace'| && !ByUser(trace'[i]) ==>
         trace'[i].token in entries
  }

  lemma InvolvesNothing(trace: seq<Event>, entries: seq<nat>)
    ensures Involves(trace, trace, entries)
  {
  }

  lemma InvolvesMore(trace: seq<Event>, trace1: seq<Event>, trace2: seq<Event>, entries: seq<nat>, w: Watch,
                     closes: bool)
    requires Involves(trace, trace1, entries) && Serving(trace1, trace2, w, closes) && w.token in entries
    ensures Involves(trace, trace2, entries)
  {
  }

  /** No token watched from position `from` on has been visited in this poll. */
  ghost predicate Unvisited(trace: seq<Event>, polls: nat, ws: seq<Watch>, from: nat) {
    forall i, j :: from <= i < |ws| && 0 <= j < |trace| && trace[j].Visited? && trace[j].token == ws[i].token
      ==> trace[j].poll < polls
  }

  lemma StillUnvisited(trace: seq<Event>, trace': seq<Event>, polls: nat, ws: seq<Watch>, at: nat, closes: bool)
    requires at < |ws| && Unvisited(trace, polls, ws, at) && Serving(trace, trace', ws[at], closes)
    requires DistinctTokens(ws)
    ensures Unvisited(trace', polls, ws, at + 1)
  {
    forall i, j | at + 1 <= i < |ws| && 0 <= j < |trace'| && trace'[j].Visited? && trace'[j].token == ws[i].token
      ensures trace'[j].poll < polls
    {
      if j < |trace| {
        assert trace'[j] == trace[j];
      }
    }
  }

  /** When a poll begins every token is older than it and none has been visited. */
  lemma PollBegins(trace: seq<Event>, tokens: seq<Registration>, born: seq<nat>, polls: nat, ws: seq<Watch>)
    requires Agrees(trace, tokens, born, polls)
    ensures Agrees(trace, tokens, born, polls + 1) && Unvisited(trace, polls + 1, ws, 0)
    ensures forall t :: 0 <= t < |born| ==> born[t] < polls + 1
  {
  }

  /** The visit of a watched socket that has kept its descriptor. */
  function VisitOf(w: Watch, polls: nat): Event {
    Visited(w.token, polls, w.fd, w.fd)
  }

  // ----- what a whole dispatch may report and serve ------------------------

  /** The k-th watched socket, k < upTo, is token t, and its hooks allow a close report. */
  ghost predicate CloseAllowed(ws: seq<Watch>, hooks: nat -> Hooks, upTo: nat, t: nat) {
    exists k :: 0 <= k < upTo && k < |ws| && ws[k].token == t && MayClose(hooks(k))
  }

  /** Every set-level close reported from trace to trace' is allowed by the hooks of the
      visit that reports it. */
  ghost predicate ClosesWarranted(trace: seq<Event>, trace': seq<Event>, ws: seq<Watch>, hooks: nat -> Hooks,
                                  upTo: nat)
  {
    forall i :: |trace| <= i < |trace'| && trace'[i].Fired? && trace'[i].what.OnSocketClose? ==>
      CloseAllowed(ws, hooks, upTo, trace'[i].token)
  }

  /** Every visit and flush from trace to trace' is of a token of the snapshot under the
      descriptor the snapshot took down. */
  ghost predicate FromSnapshot(trace: seq<Event>, trace': seq<Event>, ws: seq<Watch>) {
    forall i :: |trace| <= i < |trace'| && Serves(trace'[i]) ==> Watch(trace'[i].token, trace'[i].fd) in ws
  }

  lemma NothingReported(trace: seq<Event>, ws: seq<Watch>, hooks: nat -> Hooks)
    ensures ClosesWarranted(trace, trace, ws, hooks, 0) && FromSnapshot(trace, trace, ws)
  {
  }

  lemma NoReports(trace: seq<Event>, ws: seq<Watch>, hooks: nat -> Hooks)
    ensures ClosesWarranted(trace, trace, ws, hooks, |ws|) && FromSnapshot(trace, trace, ws)
  {
  }

  lemma ReportedMore(trace: seq<Event>, trace1: seq<Event>, trace2: seq<Event>, ws: seq<Watch>, hooks: nat -> Hooks,
                     at: nat)
    requires at < |ws| && trace <= trace1 && Serving(trace1, trace2, ws[at], MayClose(hooks(at)))
    requires ClosesWarranted(trace, trace1, ws, hooks, at) && FromSnapshot(trace, trace1, ws)
    ensures ClosesWarranted(trace, trace2, ws, hooks, at + 1) && FromSnapshot(trace, trace2, ws)
  {
    hide MayClose;
    forall i | |trace| <= i < |trace2| && trace2[i].Fired? && trace2[i].what.OnSocketClose?
      ensures CloseAllowed(ws, hooks, at + 1, trace2[i].token)
    {
      if i < |trace1| {
        assert trace2[i] == trace1[i];
        assert CloseAllowed(ws, hooks, at, trace1[i].token);
        var k :| 0 <= k < at && k < |ws| && ws[k].token == trace1[i].token && MayClose(hooks(k));
        assert ws[k].token == trace2[i].token;
      } else {
        assert ws[at].token == trace2[i].token;
      }
    }
    forall i | |trace| <= i < |trace2| && Serves(trace2[i])
      ensures Watch(trace2[i].token, trace2[i].fd) in ws
    {
      if i < |trace1| {
        assert trace2[i] == trace1[i];
      } else {
        assert ws[at] == Watch(trace2[i].token, trace2[i].fd);
      }
    }
  }

  lemma {:induction false} WatchListOpen(entries: seq<nat>, tokens: seq<Registration>, fds: map<SocketRef, nat>)
    requires forall i :: 0 <= i < |entries| ==> entries[i] < |tokens| && tokens[entries[i]].active
    ensures |WatchList(entries, tokens, fds)| <= |entries|
    ensures forall w :: w in WatchList(entries, tokens, fds) ==>
              w.token < |tokens| && tokens[w.token].active &&
              tokens[w.token].socket in fds && fds[tokens[w.token].socket] == w.fd
  {
    if entries != [] {
      WatchListOpen(entries[..|entries| - 1], tokens, fds);
    }
  }

  lemma FirstUnvisited(trace: seq<Event>, polls: nat, ws: seq<Watch>, at: nat)
    requires at < |ws| && Unvisited(trace, polls, ws, at)
    ensures Fresh(trace, ws[at].token, polls)
  {
  }

  lemma ListedDistinct(tokens: seq<Registration>, tcp: seq<nat>, udp: seq<nat>)
    requires Listed(tokens, tcp, true) && Listed(tokens, udp, false)
    ensures forall i :: 0 <= i < |tcp + udp| ==> (tcp + udp)[i] < |tokens| && tokens[(tcp + udp)[i]].active
    ensures forall i, j :: 0 <= i < j < |tcp + udp| ==> (tcp + udp)[i] != (tcp + udp)[j]
  {
  }

  /** Callbacks that perform no operation at all. */
  ghost predicate Idle(script: nat -> seq<UserOp>) {
    forall n :: script(n) == []
  }

  // ----- the operations performed ------------------------------------------

  /** The operations of user code, in order. */
  function Performed(trace: seq<Event>): seq<UserOp> {
    if trace == [] then []
    else
      var before := Performed(trace[..|trace| - 1]);
      match trace[|trace| - 1]
      case Did(op) => before + [op]
      case _ => before
  }

  lemma PerformedSnoc(trace: seq<Event>, e: Event)
    ensures Performed(trace + [e]) == Performed(trace) + if e.Did? then [e.op] else []
  {
    assert (trace + [e])[..|trace|] == trace;
  }

  /** From trace to trace' one operation was performed, with what it did to the
      registrations. */
  ghost predicate OneOperation(trace: seq<Event>, trace': seq<Event>, op: UserOp) {
    && |trace'| > |trace| && trace <= trace' && trace'[|trace|] == Did(op)
    && forall i :: |trace| < i < |trace'| ==> trace'[i].Registered? || trace'[i].Retired?
  }

  lemma {:induction false} OperationPerformed(trace: seq<Event>, trace': seq<Event>, op: UserOp)
    requires OneOperation(trace, trace', op)
    ensures Performed(trace') == Performed(trace) + [op]
    decreases |trace'|
  {
    var n := |trace'| - 1;
    assert trace' == trace'[..n] + [trace'[n]];
    PerformedSnoc(trace'[..n], trace'[n]);
    if n > |trace| {
      OperationPerformed(trace, trace'[..n], op);
    } else {
      assert trace'[..n] == trace;
    }
  }

  lemma TracksAt(trace: seq<Event>, fds: map<SocketRef, nat>, s: SocketRef)
    requires Tracks(trace, fds)
    ensures FdOf(trace, s) == if s in fds then Some(fds[s]) else None
  {
    hide FdOf;
  }

  lemma ActiveIsKnown(trace: seq<Event>, tokens: seq<Registration>, born: seq<nat>, polls: nat, t: nat)
    requires Agrees(trace, tokens, born, polls) && t < |tokens|
    ensures tokens[t].active <==> Retired(t) !in trace
  {
  }
}
