/** The readiness poller: non-owning registrations held through tokens, a snapshot
    of them per poll, and a dispatch loop whose callbacks may register, remove,
    re-register, close or reopen any socket. */
module SocketSets {
  import Transport
  import opened SocketTraces
  import opened SocketTurns
  import opened IdlePolls
  import opened Wrappers

  class EventSocketSet {
    // the two registries and the tokens they and pending snapshots share
    var tokens: seq<Registration>
    var tcp: seq<nat>
    var udp: seq<nat>

    // the sockets outside: a valid socket has a descriptor
    var fds: map<SocketRef, nat>

    var polling: bool
    var callbacks: nat

    ghost var polls: nat
    ghost var born: seq<nat>
    ghost var trace: seq<Event>

    ghost predicate Valid()
      reads this
    {
      && Listed(tokens, tcp, true)
      && Listed(tokens, udp, false)
      && AllListed(tokens, tcp, udp)
      && |born| == |tokens|
      && Agrees(trace, tokens, born, polls)
      && Clean(trace)
      && Tracks(trace, fds)
    }

    ghost predicate IsRegistered(socket: SocketRef)
      reads this
    {
      exists t :: 0 <= t < |tokens| && tokens[t].active && tokens[t].socket == socket
    }

    constructor ()
      ensures Valid() && tcp == [] && udp == [] && tokens == [] && trace == [] && fds == map[] && !polling
    {
      hide SocketTraces.Listed, AllListed, Agrees, Clean, Tracks;
      NothingRegistered();
      tokens, tcp, udp := [], [], [];
      fds := map[];
      polling, callbacks := false, 0;
      polls, born, trace := 0, [], [];
    }

    // ----- registration ----------------------------------------------------

    /** The position of the socket's registration, or the number of registrations. */
    method Find(socket: SocketRef) returns (index: nat)
      requires Valid()
      ensures var entries := if socket.Tcp? then tcp else udp;
              && index <= |entries|
              && (index < |entries| ==> entries[index] < |tokens| && tokens[entries[index]].socket == socket)
              && (index < |entries| <==> IsRegistered(socket))
    {
      var entries := if socket.Tcp? then tcp else udp;
      index := 0;
      while index < |entries| && tokens[entries[index]].socket != socket
        invariant index <= |entries|
        invariant forall i :: 0 <= i < index ==> tokens[entries[i]].socket != socket
      {
        index := index + 1;
      }
      if index < |entries| {
        assert tokens[entries[index]].active;
      }
    }

    method AddSocket(socket: SocketRef) returns (ok: bool)
      requires Valid()
      modifies this`tokens, this`tcp, this`udp, this`born, this`trace
      ensures Valid() && ok == !old(IsRegistered(socket))
      ensures Evolves(old(tokens), old(born), old(trace), tokens, born, trace)
      ensures !ok ==> tokens == old(tokens) && tcp == old(tcp) && udp == old(udp) && trace == old(trace)
      ensures ok ==>
                && tokens == old(tokens) + [Registration(socket, true)]
                && tcp == old(tcp) + (if socket.Tcp? then [|old(tokens)|] else [])
                && udp == old(udp) + (if socket.Tcp? then [] else [|old(tokens)|])
                && trace == old(trace) + [Registered(|old(tokens)|, polls)]
    {
      hide Clean, Agrees, SocketTraces.Listed, AllListed, Tracks;
      var index := Find(socket);
      if index < (if socket.Tcp? then |tcp| else |udp|) {
        return false;
      }
      RegisterKeeps(trace, tokens, born, polls, Registration(socket, true));
      RegisterLists(tokens, tcp, udp, socket);
      TracksMore(trace, fds, Registered(|tokens|, polls));
      trace := trace + [Registered(|tokens|, polls)];
      born := born + [polls];
      if socket.Tcp? {
        tcp := tcp + [|tokens|];
      } else {
        udp := udp + [|tokens|];
      }
      tokens := tokens + [Registration(socket, true)];
      return true;
    }

    /** Takes one registration out of its list and deactivates its token. */
    method Retire(fromTcp: bool, index: nat)
      requires Valid() && index < (if fromTcp then |tcp| else |udp|)
      modifies this`tokens, this`tcp, this`udp, this`trace
      ensures Valid() && Evolves(old(tokens), old(born), old(trace), tokens, born, trace)
      ensures tcp == (if fromTcp then Without(old(tcp), index) else old(tcp))
      ensures udp == (if fromTcp then old(udp) else Without(old(udp), index))
      ensures var t := old(if fromTcp then tcp else udp)[index];
              && t < |old(tokens)|
              && tokens == old(tokens)[t := old(tokens)[t].(active := false)]
              && trace == old(trace) + [Retired(t)]
    {
      hide Clean, Agrees, SocketTraces.Listed, AllListed, Tracks;
      var t := (if fromTcp then tcp else udp)[index];
      RetireLists(tokens, tcp, udp, fromTcp, index);
      RetireKeeps(trace, tokens, born, polls, t);
      tokens := tokens[t := tokens[t].(active := false)];
      if fromTcp {
        tcp := Without(tcp, index);
      } else {
        udp := Without(udp, index);
      }
      TracksMore(trace, fds, Retired(t));
      trace := trace + [Retired(t)];
    }

    method RemoveSocket(socket: SocketRef) returns (ok: bool)
      requires Valid()
      modifies this`tokens, this`tcp, this`udp, this`trace
      ensures Valid() && ok == old(IsRegistered(socket)) && !IsRegistered(socket)
      ensures Evolves(old(tokens), old(born), old(trace), tokens, born, trace)
      ensures OnlyRegistry(old(trace), trace)
      ensures Unregisters(old(tokens), tokens, socket)
    {
      hide Clean, Agrees, Tracks, AllListed, SocketTraces.Listed;
      var index := Find(socket);
      if index == (if socket.Tcp? then |tcp| else |udp|) {
        NobodyRegistered(tokens, socket);
        return false;
      }
      ghost var t := (if socket.Tcp? then tcp else udp)[index];
      ListedActive(tokens, if socket.Tcp? then tcp else udp, socket.Tcp?, index);
      UnregistersOne(tokens, tcp, udp, t, socket);
      Retire(socket.Tcp?, index);
      return true;
    }

    /** TCP registrations come first, UDP registrations after them. */
    method RemoveAt(index: nat) returns (ok: bool)
      requires Valid()
      modifies this`tokens, this`tcp, this`udp, this`trace
      ensures Valid() && ok == (index < |old(tcp + udp)|)
      ensures Evolves(old(tokens), old(born), old(trace), tokens, born, trace)
      ensures OnlyRegistry(old(trace), trace)
      ensures tcp + udp == if ok then Without(old(tcp + udp), index) else old(tcp + udp)
    {
      hide Clean, Agrees, SocketTraces.Listed, AllListed, Without, Tracks;
      if index < |tcp + udp| {
        WithoutConcat(tcp, udp, index);
      }
      if index < |tcp| {
        Retire(true, index);
        return true;
      }
      if index - |tcp| < |udp| {
        Retire(false, index - |tcp|);
        return true;
      }
      return false;
    }

    method Size() returns (n: nat)
      ensures n == |tcp + udp|
    {
      n := |tcp| + |udp|;
    }

    // ----- user code -------------------------------------------------------

    /** One operation of user code. */
    method Perform(op: UserOp)
      requires Valid()
      modifies this`tokens, this`tcp, this`udp, this`born, this`trace, this`fds
      ensures Valid() && Evolves(old(tokens), old(born), old(trace), tokens, born, trace)
      ensures OneOperation(old(trace), trace, op)
      ensures fds == FdsAfter(old(fds), Did(op))
      ensures op.Add? ==>
                tokens == old(tokens) + if old(IsRegistered(op.socket)) then [] else [Registration(op.socket, true)]
      ensures op.Remove? ==> Unregisters(old(tokens), tokens, op.socket)
      ensures op.RemoveAt? ==>
                tcp + udp == if op.index < |old(tcp + udp)| then Without(old(tcp + udp), op.index) else old(tcp + udp)
      ensures op.CloseSocket? || op.OpenSocket? ==> tokens == old(tokens)
    {
      hide Clean, Agrees, SocketTraces.Listed, AllListed, Tracks, Without;
      DidKeeps(trace, tokens, born, polls, op);
      TracksMore(trace, fds, Did(op));
      trace := trace + [Did(op)];
      match op
      case CloseSocket(s) => fds := fds - {s};
      case OpenSocket(s, fd) => fds := fds[s := fd];
      case _ => Reregister(op);
    }

    /** The operations on the registrations. */
    method Reregister(op: UserOp)
      requires Valid() && (op.Add? || op.Remove? || op.RemoveAt?)
      modifies this`tokens, this`tcp, this`udp, this`born, this`trace
      ensures Valid() && Evolves(old(tokens), old(born), old(trace), tokens, born, trace)
      ensures OnlyRegistry(old(trace), trace)
      ensures op.Add? ==>
                tokens == old(tokens) + if old(IsRegistered(op.socket)) then [] else [Registration(op.socket, true)]
      ensures op.Remove? ==> Unregisters(old(tokens), tokens, op.socket)
      ensures op.RemoveAt? ==>
                tcp + udp == if op.index < |old(tcp + udp)| then Without(old(tcp + udp), op.index) else old(tcp + udp)
    {
      hide Clean, Agrees, SocketTraces.Listed, AllListed, Tracks, Without;
      match op
      case Add(s) => var _ := AddSocket(s);
      case Remove(s) => var _ := RemoveSocket(s);
      case RemoveAt(i) => var _ := RemoveAt(i);
    }

    /** Marks what the poller does to the socket behind a token; only an active token may
        be used, and only one older than the current poll. */
    ghost method Note(e: Event)
      requires Valid() && (e.Used? || e.Counted?) && e.poll == polls
      requires e.token < |tokens| && tokens[e.token].active && born[e.token] < polls
      modifies this`trace
      ensures Valid() && trace == old(trace) + [e] && About(old(trace), trace, e.token, false)
      ensures NoUser(old(trace), trace)
    {
      hide Clean, SocketTraces.Listed, AllListed, Agrees, Tracks;
      ServeKeeps(trace, tokens, born, polls, e);
      TracksMore(trace, fds, e);
      NoteAbout(trace, e);
      trace := trace + [e];
    }

    /** Marks a visit or a flush of a socket through an active token. */
    ghost method Serve(e: Event)
      requires Valid() && Serves(e) && e.token < |tokens| && tokens[e.token].active && born[e.token] < e.poll == polls
      requires e.fd == e.current && (e.Visited? ==> Fresh(trace, e.token, polls))
      modifies this`trace
      ensures Valid() && trace == old(trace) + [e] && NoUser(old(trace), trace)
    {
      hide Clean, SocketTraces.Listed, AllListed, Agrees, Fresh, Tracks;
      ServeKeeps(trace, tokens, born, polls, e);
      TracksMore(trace, fds, e);
      trace := trace + [e];
    }

    /** Enters a callback, which then performs the operations its script has for it. */
    method Fire(t: nat, what: Callback, script: nat -> seq<UserOp>)
      requires Valid() && t < |tokens| && tokens[t].active && born[t] < polls
      modifies this`tokens, this`tcp, this`udp, this`born, this`trace, this`fds, this`callbacks
      ensures Valid() && Evolves(old(tokens), old(born), old(trace), tokens, born, trace)
      ensures Calls(old(trace), trace, t, polls, what)
      ensures callbacks == old(callbacks) + 1
      ensures Performed(trace) == Performed(old(trace)) + script(old(callbacks))
      ensures Idle(script) ==> NoUser(old(trace), trace)
      ensures About(old(trace), trace, t, what.OnSocketClose?)
    {
      hide Clean, SocketTraces.Listed, AllListed, Agrees, About, Tracks, Performed;
      ServeKeeps(trace, tokens, born, polls, Fired(t, polls, what));
      TracksMore(trace, fds, Fired(t, polls, what));
      PerformedSnoc(trace, Fired(t, polls, what));
      trace := trace + [Fired(t, polls, what)];
      var ops := script(callbacks);
      callbacks := callbacks + 1;
      for k := 0 to |ops|
        invariant Valid() && Evolves(old(tokens), old(born), old(trace), tokens, born, trace)
        invariant Calls(old(trace), trace, t, polls, what) && callbacks == old(callbacks) + 1
        invariant Performed(trace) == Performed(old(trace)) + ops[..k]
        invariant k == 0 ==> trace == old(trace) + [Fired(t, polls, what)]
      {
        ghost var before := trace;
        Perform(ops[k]);
        OperationPerformed(before, trace, ops[k]);
        assert ops[..k + 1] == ops[..k] + [ops[k]];
      }
      assert ops[..|ops|] == ops;
      FiredAbout(old(trace), trace, t, polls, what);
    }

    // ----- one visit -------------------------------------------------------

    /** The socket behind the token still has the descriptor it had when watched. */
    predicate SameDescriptor(w: Watch)
      requires w.token < |tokens|
      reads this
    {
      tokens[w.token].socket in fds && fds[tokens[w.token].socket] == w.fd
    }

    /** What the trace tells of a token and its socket is what the set knows. */
    lemma TraceTells(t: nat)
      requires Valid() && t < |tokens|
      ensures Survives(trace, t) <==> tokens[t].active
      ensures FdOf(trace, tokens[t].socket)
           == if tokens[t].socket in fds then Some(fds[tokens[t].socket]) else None
    {
      hide Clean, SocketTraces.Listed, AllListed, Agrees, Tracks;
      ActiveIsKnown(trace, tokens, born, polls, t);
      TracksAt(trace, fds, tokens[t].socket);
    }

    /** A callback of the socket, then the set's one if the token survived it. */
    method FireBoth(t: nat, own: Callback, fanOut: Callback, script: nat -> seq<UserOp>)
      requires Valid() && t < |tokens| && tokens[t].active && born[t] < polls
      modifies this`tokens, this`tcp, this`udp, this`born, this`trace, this`fds, this`callbacks
      ensures Valid() && Evolves(old(tokens), old(born), old(trace), tokens, born, trace)
      ensures Idle(script) ==> NoUser(old(trace), trace)
      ensures Both(old(trace), trace, t, polls, own, fanOut)
      ensures About(old(trace), trace, t, own.OnSocketClose? || fanOut.OnSocketClose?)
    {
      hide Clean, SocketTraces.Listed, AllListed, Agrees, Tracks, NoUser, FdOf, Survives, About, Calls, Performed,
           Idle, Both;
      Fire(t, own, script);
      ghost var between := trace;
      TraceTells(t);
      if tokens[t].active {
        Fire(t, fanOut, script);
        AboutThen(old(trace), between, trace, t, own.OnSocketClose?, fanOut.OnSocketClose?);
        NoUserThen(old(trace), between, trace);
      } else {
        AboutAllows(old(trace), trace, t, own.OnSocketClose?, own.OnSocketClose? || fanOut.OnSocketClose?);
      }
      BothCalls(old(trace), between, trace, t, polls, own, fanOut);
    }

    /** Marks that the poller closes the socket behind an active token, and whether there
        was a descriptor to close. */
    method NoteClose(t: nat) returns (open: bool)
      requires Valid() && t < |tokens| && tokens[t].active && born[t] < polls
      modifies this`trace, this`fds
      ensures Valid() && NoUser(old(trace), trace) && About(old(trace), trace, t, false)
      ensures open == FdOf(old(trace), tokens[t].socket).Some?
      ensures trace == old(trace) + [Used(t, polls), Closed(t, polls, tokens[t].socket, open)]
    {
      hide Clean, SocketTraces.Listed, AllListed, Agrees, Tracks, FdOf;
      TraceTells(t);
      Note(Used(t, polls));
      var socket := tokens[t].socket;
      open := socket in fds;
      ghost var e := Closed(t, polls, socket, open);
      ServeKeeps(trace, tokens, born, polls, e);
      TracksMore(trace, fds, e);
      fds := fds - {socket};
      trace := trace + [e];
    }

    /** s->close() through an active token; the socket's close handler runs if there
        was a descriptor to close. */
    method CloseWatched(t: nat, script: nat -> seq<UserOp>)
      requires Valid() && t < |tokens| && tokens[t].active && born[t] < polls
      modifies this`tokens, this`tcp, this`udp, this`born, this`trace, this`fds, this`callbacks
      ensures Valid() && Evolves(old(tokens), old(born), old(trace), tokens, born, trace)
      ensures Idle(script) ==> NoUser(old(trace), trace)
      ensures Closes(old(trace), trace, t, polls, tokens[t].socket)
      ensures About(old(trace), trace, t, false)
    {
      hide Clean, SocketTraces.Listed, AllListed, Agrees, Tracks, NoUser, FdOf, Survives, About, Calls;
      var open := NoteClose(t);
      ghost var closed := trace;
      if open {
        Fire(t, OnClose, script);
        AboutThen(old(trace), closed, trace, t, false, false);
        NoUserThen(old(trace), closed, trace);
      }
    }

    /** An orderly end of the stream: closed, and reported by the set if still registered. */
    method EndWatched(t: nat, script: nat -> seq<UserOp>)
      requires Valid() && t < |tokens| && tokens[t].active && born[t] < polls
      modifies this`tokens, this`tcp, this`udp, this`born, this`trace, this`fds, this`callbacks
      ensures Valid() && Evolves(old(tokens), old(born), old(trace), tokens, born, trace)
      ensures Idle(script) ==> NoUser(old(trace), trace)
      ensures EndsStream(old(trace), trace, t, polls, tokens[t].socket)
      ensures About(old(trace), trace, t, true)
    {
      hide Clean, SocketTraces.Listed, AllListed, Agrees, Tracks, NoUser, FdOf, Survives, About, Calls, Closes;
      CloseWatched(t, script);
      ghost var closed := trace;
      TraceTells(t);
      if tokens[t].active {
        Fire(t, OnSocketClose, script);
        AboutThen(old(trace), closed, trace, t, false, true);
        NoUserThen(old(trace), closed, trace);
      } else {
        AboutAllows(old(trace), trace, t, false, true);
      }
      assert Closes(old(trace), closed, t, polls, tokens[t].socket);
    }

    /** After the callbacks of an error: a TLS socket is closed, if it is still registered
        and open, or even under its descriptor. */
    method CloseAfter(w: Watch, sameOnly: bool, script: nat -> seq<UserOp>)
      requires Valid() && w.token < |tokens| && born[w.token] < polls
      modifies this`tokens, this`tcp, this`udp, this`born, this`trace, this`fds, this`callbacks
      ensures Valid() && Evolves(old(tokens), old(born), old(trace), tokens, born, trace)
      ensures Idle(script) ==> NoUser(old(trace), trace)
      ensures ClosesAfter(old(trace), trace, w.token, polls, tokens[w.token].socket,
                          Some(if sameOnly then Under(w.fd) else Open))
      ensures About(old(trace), trace, w.token, false)
    {
      hide Clean, SocketTraces.Listed, AllListed, Agrees, Tracks, NoUser, FdOf, Survives, About, Calls, Closes;
      var t := w.token;
      TraceTells(t);
      if tokens[t].active {
        Note(Used(t, polls));
        ghost var looked := trace;
        MarkKeeps(old(trace), Used(t, polls), t, tokens[t].socket);
        if tokens[t].socket in fds && (!sameOnly || SameDescriptor(w)) {
          CloseWatched(t, script);
          AboutThen(old(trace), looked, trace, t, false, false);
          NoUserThen(old(trace), looked, trace);
        } else {
          NoUserStays(old(trace), trace);
        }
      } else {
        AboutNothing(trace, t, false);
        NoUserStays(trace, trace);
      }
    }

    /** An error is reported to the socket and the set; a TLS socket is then closed,
        if it is still registered and open. */
    method ReportError(w: Watch, closeAfter: bool, sameOnly: bool, script: nat -> seq<UserOp>)
      requires Valid() && w.token < |tokens| && tokens[w.token].active && born[w.token] < polls
      modifies this`tokens, this`tcp, this`udp, this`born, this`trace, this`fds, this`callbacks
      ensures Valid() && Evolves(old(tokens), old(born), old(trace), tokens, born, trace)
      ensures Idle(script) ==> NoUser(old(trace), trace)
      ensures Errs(old(trace), trace, w.token, polls, tokens[w.token].socket,
                   if closeAfter then Some(if sameOnly then Under(w.fd) else Open) else None)
      ensures About(old(trace), trace, w.token, false)
    {
      hide Clean, SocketTraces.Listed, AllListed, Agrees, Tracks, NoUser, FdOf, Survives, About, Calls, Closes, Both;
      var t := w.token;
      Note(Used(t, polls));
      ghost var looked := trace;
      FireBoth(t, OnError, OnSocketError, script);
      ghost var told := trace;
      AboutThen(old(trace), looked, told, t, false, false);
      NoUserThen(old(trace), looked, told);
      if closeAfter {
        CloseAfter(w, sameOnly, script);
        AboutThen(old(trace), told, trace, t, false, false);
        NoUserThen(old(trace), told, trace);
      }
      assert Both(looked, told, t, polls, OnError, OnSocketError);
    }

    method VisitListener(w: Watch, h: Hooks, script: nat -> seq<UserOp>) returns (handled: nat)
      requires Valid() && w.token < |tokens| && tokens[w.token].active && born[w.token] < polls
      modifies this`tokens, this`tcp, this`udp, this`born, this`trace, this`fds, this`callbacks
      ensures Valid() && Evolves(old(tokens), old(born), old(trace), tokens, born, trace)
      ensures Idle(script) ==> NoUser(old(trace), trace)
      ensures Listens(old(trace), trace, w, polls, tokens[w.token].socket, h)
      ensures About(old(trace), trace, w.token, false)
      ensures handled == if ListenerDuty(h) == Nothing then 0 else 1
    {
      hide Clean, SocketTraces.Listed, AllListed, Agrees, Tracks, NoUser, FdOf, Survives, About, Calls, Errs;
      if h.flags.input {
        Note(Counted(w.token, polls));
        ghost var counted := trace;
        Fire(w.token, OnSocketListen, script);
        AboutThen(old(trace), counted, trace, w.token, false, false);
        NoUserThen(old(trace), counted, trace);
        return 1;
      }
      if h.flags.err || h.flags.nval || h.flags.hup {
        Note(Counted(w.token, polls));
        ghost var counted := trace;
        ReportError(w, false, false, script);
        AboutThen(old(trace), counted, trace, w.token, false, false);
        NoUserThen(old(trace), counted, trace);
        return 1;
      }
      AboutNothing(trace, w.token, false);
      NoUserStays(trace, trace);
      return 0;
    }

    /** What a read leads to once it is counted. */
    method AnswerRead(w: Watch, h: Hooks, script: nat -> seq<UserOp>)
      requires Valid() && w.token < |tokens| && tokens[w.token].active && born[w.token] < polls
      requires ReadDuty(h, w.fd) != Nothing
      modifies this`tokens, this`tcp, this`udp, this`born, this`trace, this`fds, this`callbacks
      ensures Valid() && Evolves(old(tokens), old(born), old(trace), tokens, born, trace)
      ensures Idle(script) ==> NoUser(old(trace), trace)
      ensures var (a, b, t, s) := (old(trace), trace, w.token, tokens[w.token].socket);
              if h.readReady && h.received > 0 then Both(a, b, t, polls, OnData, OnSocketData)
              else if h.readReady && h.received == 0 then EndsStream(a, b, t, polls, s)
              else Errs(a, b, t, polls, s, if h.readReady && h.errorTerminal then Some(Under(w.fd)) else None)
      ensures About(old(trace), trace, w.token, h.readReady && h.received == 0)
    {
      hide Clean, SocketTraces.Listed, AllListed, Agrees, Tracks, NoUser, FdOf, Survives, About, Both, EndsStream,
           Errs;
      if h.readReady {
        if h.received > 0 {
          FireBoth(w.token, OnData, OnSocketData, script);
        } else if h.received == 0 {
          EndWatched(w.token, script);
        } else {
          ReportError(w, h.errorTerminal, true, script);
        }
      } else {
        ReportError(w, false, false, script);
      }
    }

    /** The read half of a stream's visit. */
    method ReadStream(w: Watch, h: Hooks, script: nat -> seq<UserOp>) returns (handled: nat)
      requires Valid() && w.token < |tokens| && tokens[w.token].active && born[w.token] < polls
      modifies this`tokens, this`tcp, this`udp, this`born, this`trace, this`fds, this`callbacks
      ensures Valid() && Evolves(old(tokens), old(born), old(trace), tokens, born, trace)
      ensures Idle(script) ==> NoUser(old(trace), trace)
      ensures ReadsStream(old(trace), trace, w, polls, tokens[w.token].socket, h)
      ensures About(old(trace), trace, w.token, h.readReady && h.received == 0)
      ensures handled == if ReadDuty(h, w.fd) == Nothing then 0 else 1
    {
      hide Clean, SocketTraces.Listed, AllListed, Agrees, Tracks, NoUser, FdOf, Survives, About, Both, EndsStream,
           Errs;
      var t := w.token;
      Note(Used(t, polls));
      if (if h.readReady then h.received < 0 && h.wouldBlock else !h.flags.err && !h.flags.nval) {
        AboutAllows(old(trace), trace, t, false, h.readReady && h.received == 0);
        NoUserStays(old(trace), trace);
        return 0;
      }
      ghost var looked := trace;
      Note(Counted(t, polls));
      ghost var counted := trace;
      AboutThen(old(trace), looked, counted, t, false, false);
      NoUserThen(old(trace), looked, counted);
      AnswerRead(w, h, script);
      AboutThen(old(trace), counted, trace, t, false, h.readReady && h.received == 0);
      NoUserThen(old(trace), counted, trace);
      return 1;
    }

    /** What follows a flush. */
    method AnswerFlush(w: Watch, h: Hooks, script: nat -> seq<UserOp>) returns (handled: nat)
      requires Valid() && w.token < |tokens| && tokens[w.token].active && born[w.token] < polls
      modifies this`tokens, this`tcp, this`udp, this`born, this`trace, this`fds, this`callbacks
      ensures Valid() && Evolves(old(tokens), old(born), old(trace), tokens, born, trace)
      ensures Idle(script) ==> NoUser(old(trace), trace)
      ensures var (t, s) := (w.token, tokens[w.token].socket);
              var c := if FlushCounts(h) then old(trace) + [Counted(t, polls)] else old(trace);
              if h.flushError then Errs(c, trace, t, polls, s, if h.errorTerminal then Some(Under(w.fd)) else None)
              else if h.drained then Both(c, trace, t, polls, OnDrain, OnSocketDrain)
              else trace == c
      ensures About(old(trace), trace, w.token, false)
      ensures handled == if FlushCounts(h) then 1 else 0
    {
      hide Clean, SocketTraces.Listed, AllListed, Agrees, Tracks, NoUser, FdOf, Survives, About, Both, Errs;
      var t := w.token;
      handled := 0;
      AboutNothing(trace, t, false);
      NoUserStays(trace, trace);
      if h.flushedBytes != 0 || h.drained || h.flushError {
        Note(Counted(t, polls));
        handled := 1;
      }
      ghost var counted := trace;
      if h.flushError {
        ReportError(w, h.errorTerminal, true, script);
        AboutThen(old(trace), counted, trace, t, false, false);
        NoUserThen(old(trace), counted, trace);
      } else if h.drained {
        FireBoth(t, OnDrain, OnSocketDrain, script);
        AboutThen(old(trace), counted, trace, t, false, false);
        NoUserThen(old(trace), counted, trace);
      }
    }

    /** The write half: only for a socket still registered under its descriptor. */
    method FlushStream(w: Watch, h: Hooks, script: nat -> seq<UserOp>) returns (handled: nat)
      requires Valid() && w.token < |tokens| && born[w.token] < polls
      modifies this`tokens, this`tcp, this`udp, this`born, this`trace, this`fds, this`callbacks
      ensures Valid() && Evolves(old(tokens), old(born), old(trace), tokens, born, trace)
      ensures Idle(script) ==> NoUser(old(trace), trace)
      ensures FlushesStream(old(trace), trace, w, polls, tokens[w.token].socket, h)
      ensures Serving(old(trace), trace, w, false)
      ensures handled <= 1 && Handled(trace) == Handled(old(trace)) + handled
    {
      hide Clean, SocketTraces.Listed, AllListed, Agrees, Tracks, NoUser, FdOf, Survives, About, Both, Errs, Serving,
           Handled;
      handled := 0;
      var t := w.token;
      TraceTells(t);
      if !tokens[t].active {
        AboutNothing(trace, t, false);
        AboutServes(trace, trace, w, false);
        NoUserStays(trace, trace);
        return;
      }
      Note(Used(t, polls));
      ghost var looked := trace;
      HandledSnoc(old(trace), Used(t, polls));
      if !SameDescriptor(w) || !h.queueReady {
        AboutServes(old(trace), trace, w, false);
        NoUserStays(old(trace), trace);
        return;
      }
      Serve(Flushed(t, polls, w.fd, fds[tokens[t].socket]));
      ghost var flushed := trace;
      assert flushed == old(trace) + [Used(t, polls), Flushed(t, polls, w.fd, w.fd)];
      handled := AnswerFlush(w, h, script);
      FlushCountsTo(old(trace), trace, w, polls, tokens[t].socket, h);
      FlushServes(old(trace), trace, w, polls);
      NoUserThen(old(trace), looked, flushed);
      NoUserThen(old(trace), flushed, trace);
    }

    /** The callbacks after a handshake. */
    method AnnounceConnect(w: Watch, script: nat -> seq<UserOp>)
      requires Valid() && w.token < |tokens| && tokens[w.token].active && born[w.token] < polls
      modifies this`tokens, this`tcp, this`udp, this`born, this`trace, this`fds, this`callbacks
      ensures Valid() && Evolves(old(tokens), old(born), old(trace), tokens, born, trace)
      ensures Idle(script) ==> NoUser(old(trace), trace)
      ensures Connects(old(trace), trace, w, polls, tokens[w.token].socket)
      ensures About(old(trace), trace, w.token, false)
    {
      hide Clean, SocketTraces.Listed, AllListed, Agrees, Tracks, NoUser, FdOf, Survives, About, Calls;
      var t := w.token;
      Fire(t, OnConnect, script);
      ghost var told := trace;
      TraceTells(t);
      assert Calls(old(trace), told, t, polls, OnConnect);
      if tokens[t].active {
        Note(Used(t, polls));
        ghost var looked := trace;
        AboutThen(old(trace), told, looked, t, false, false);
        NoUserThen(old(trace), told, looked);
        if SameDescriptor(w) {
          Fire(t, OnSocketConnect, script);
          AboutThen(old(trace), looked, trace, t, false, false);
          NoUserThen(old(trace), looked, trace);
        }
      }
    }
    /** A verdict of poll_step that leaves no room for application data: pending,
        failed, handshake complete, or closed in order. */
    method FollowVerdict(w: Watch, h: Hooks, script: nat -> seq<UserOp>)
      requires Valid() && w.token < |tokens| && tokens[w.token].active && born[w.token] < polls
      requires h.step <= 0 || h.step == 2 || h.step == 3
      modifies this`tokens, this`tcp, this`udp, this`born, this`trace, this`fds, this`callbacks
      ensures Valid() && Evolves(old(tokens), old(born), old(trace), tokens, born, trace)
      ensures Idle(script) ==> NoUser(old(trace), trace)
      ensures FollowsVerdict(old(trace), trace, w, polls, tokens[w.token].socket, h)
      ensures About(old(trace), trace, w.token, h.step == 3)
    {
      hide Clean, SocketTraces.Listed, AllListed, Agrees, Tracks, NoUser, FdOf, Survives, About, Errs, EndsStream,
           Connects;
      var t := w.token;
      Note(Counted(t, polls));
      ghost var counted := trace;
      if h.step < 0 {
        ReportError(w, true, false, script);
        AboutThen(old(trace), counted, trace, t, false, false);
        NoUserThen(old(trace), counted, trace);
      }
      if h.step == 3 {
        EndWatched(t, script);
        AboutThen(old(trace), counted, trace, t, false, true);
        NoUserThen(old(trace), counted, trace);
      }
      if h.step == 2 {
        AnnounceConnect(w, script);
        AboutThen(old(trace), counted, trace, t, false, false);
        NoUserThen(old(trace), counted, trace);
      }
    }

    /** A stream whose data may flow: read, then flush. */
    method MoveData(w: Watch, h: Hooks, script: nat -> seq<UserOp>) returns (handled: nat)
      requires Valid() && w.token < |tokens| && tokens[w.token].active && born[w.token] < polls
      requires tokens[w.token].socket in fds
      modifies this`tokens, this`tcp, this`udp, this`born, this`trace, this`fds, this`callbacks
      ensures Valid() && Evolves(old(tokens), old(born), old(trace), tokens, born, trace)
      ensures Idle(script) ==> NoUser(old(trace), trace)
      ensures MovesData(old(trace), trace, w, polls, tokens[w.token].socket, h)
      ensures Serving(old(trace), trace, w, h.readReady && h.received == 0)
      ensures handled <= 2 && Handled(trace) == Handled(old(trace)) + handled
    {
      hide Clean, SocketTraces.Listed, AllListed, Agrees, Tracks, NoUser, FdOf, Survives, About, Serving,
           ReadsStream, FlushesStream, Handled;
      TraceTells(w.token);
      var read := ReadStream(w, h, script);
      ghost var between := trace;
      ReadCountsTo(old(trace), between, w, polls, tokens[w.token].socket, h);
      var flushed := FlushStream(w, h, script);
      AboutThenServing(old(trace), between, trace, w, h.readReady && h.received == 0, false);
      NoUserThen(old(trace), between, trace);
      return read + flushed;
    }

    /** What poll_step's verdict leads to for a connected stream. */
    method VisitStream(w: Watch, h: Hooks, script: nat -> seq<UserOp>) returns (handled: nat)
      requires Valid() && w.token < |tokens| && tokens[w.token].active && born[w.token] < polls
      requires tokens[w.token].socket in fds
      modifies this`tokens, this`tcp, this`udp, this`born, this`trace, this`fds, this`callbacks
      ensures Valid() && Evolves(old(tokens), old(born), old(trace), tokens, born, trace)
      ensures Idle(script) ==> NoUser(old(trace), trace)
      ensures var (u, s) := (old(trace) + [Used(w.token, polls)], tokens[w.token].socket);
              if Verdicts(h) then FollowsVerdict(u, trace, w, polls, s, h) else MovesData(u, trace, w, polls, s, h)
      ensures Serving(old(trace), trace, w, MayClose(h))
      ensures handled <= 2 && Handled(trace) == Handled(old(trace)) + handled
    {
      hide Clean, SocketTraces.Listed, AllListed, Agrees, Tracks, NoUser, FdOf, Survives, About, Serving,
           FollowsVerdict, MovesData, Handled;
      Note(Used(w.token, polls));
      ghost var looked := trace;
      HandledSnoc(old(trace), Used(w.token, polls));
      if h.step <= 0 || h.step == 2 || h.step == 3 {
        TraceTells(w.token);
        FollowVerdict(w, h, script);
        VerdictCountsTo(looked, trace, w, polls, tokens[w.token].socket, h);
        AboutThen(old(trace), looked, trace, w.token, false, h.step == 3);
        AboutAllows(old(trace), trace, w.token, h.step == 3, MayClose(h));
        AboutServes(old(trace), trace, w, MayClose(h));
        NoUserThen(old(trace), looked, trace);
        return 1;
      }
      handled := MoveData(w, h, script);
      AboutThenServing(old(trace), looked, trace, w, false, MayClose(h));
      NoUserThen(old(trace), looked, trace);
    }

    method VisitDatagram(w: Watch, h: Hooks, script: nat -> seq<UserOp>) returns (handled: nat)
      requires Valid() && w.token < |tokens| && tokens[w.token].active && born[w.token] < polls
      modifies this`tokens, this`tcp, this`udp, this`born, this`trace, this`fds, this`callbacks
      ensures Valid() && Evolves(old(tokens), old(born), old(trace), tokens, born, trace)
      ensures Idle(script) ==> NoUser(old(trace), trace)
      ensures TakesDatagram(old(trace), trace, w, polls, tokens[w.token].socket, h)
      ensures About(old(trace), trace, w.token, false)
      ensures handled == if DatagramDuty(h) == Nothing then 0 else 1
    {
      hide Clean, SocketTraces.Listed, AllListed, Agrees, Tracks, NoUser, FdOf, Survives, About, Both, Errs;
      var t := w.token;
      Note(Used(t, polls));
      if (if h.flags.input then h.received < 0 && h.wouldBlock else !h.flags.err && !h.flags.nval) {
        NoUserStays(old(trace), trace);
        return 0;
      }
      ghost var looked := trace;
      Note(Counted(t, polls));
      ghost var counted := trace;
      AboutThen(old(trace), looked, counted, t, false, false);
      NoUserThen(old(trace), looked, counted);
      if h.flags.input && h.received >= 0 {
        FireBoth(t, OnDatagram, OnSocketDatagram, script);
      } else {
        ReportError(w, false, false, script);
      }
      AboutThen(old(trace), counted, trace, t, false, false);
      NoUserThen(old(trace), counted, trace);
      return 1;
    }

    // ----- poll ------------------------------------------------------------

    /** A visited socket gets what its kind calls for. */
    method Attend(w: Watch, h: Hooks, script: nat -> seq<UserOp>) returns (handled: nat)
      requires Valid() && w.token < |tokens| && tokens[w.token].active && born[w.token] < polls
      requires tokens[w.token].socket in fds
      modifies this`tokens, this`tcp, this`udp, this`born, this`trace, this`fds, this`callbacks
      ensures Valid() && Evolves(old(tokens), old(born), old(trace), tokens, born, trace)
      ensures Idle(script) ==> NoUser(old(trace), trace)
      ensures Attends(old(trace), trace, w, polls, tokens[w.token].socket, h)
      ensures Serving(old(trace), trace, w, MayClose(h))
      ensures handled <= 2 && Handled(trace) == Handled(old(trace)) + handled
    {
      hide Clean, SocketTraces.Listed, AllListed, Agrees, Tracks, NoUser, FdOf, Survives, About, Serving, MayClose,
           TakesDatagram, Listens, FollowsVerdict, MovesData, Handled;
      if tokens[w.token].socket.Udp? {
        handled := VisitDatagram(w, h, script);
        DatagramCountsTo(old(trace), trace, w, polls, tokens[w.token].socket, h);
        AboutAllows(old(trace), trace, w.token, false, MayClose(h));
        AboutServes(old(trace), trace, w, MayClose(h));
      } else if h.listener {
        handled := VisitListener(w, h, script);
        ListenerCountsTo(old(trace), trace, w, polls, tokens[w.token].socket, h);
        AboutAllows(old(trace), trace, w.token, false, MayClose(h));
        AboutServes(old(trace), trace, w, MayClose(h));
      } else {
        handled := VisitStream(w, h, script);
      }
    }

    /** What a turn does before its visit: the socket is looked at through its token, and
        is to be visited if it is ready and still registered under its descriptor. */
    method Look(w: Watch, h: Hooks) returns (visit: bool)
      requires Valid() && w.token < |tokens| && born[w.token] < polls
      modifies this`trace
      ensures Valid() && OnlyLookedAt(old(trace), trace) && Serving(old(trace), trace, w, MayClose(h))
      ensures visit <==> Ready(h, tokens[w.token].socket) && tokens[w.token].active && SameDescriptor(w)
    {
      hide Clean, SocketTraces.Listed, AllListed, Agrees, Tracks, MayClose;
      var t := w.token;
      if !tokens[t].active {
        return false;
      }
      if !AnyFlag(h.flags) {
        Note(Used(t, polls));
        if tokens[t].socket.Udp? || !h.due {
          return false;
        }
      }
      Note(Used(t, polls));
      return SameDescriptor(w);
    }

    /** One iteration of the dispatch loop. */
    method Visit(w: Watch, h: Hooks, script: nat -> seq<UserOp>) returns (handled: nat)
      requires Valid() && w.token < |tokens| && born[w.token] < polls
      requires Fresh(trace, w.token, polls)
      modifies this`tokens, this`tcp, this`udp, this`born, this`trace, this`fds, this`callbacks
      ensures Valid() && Evolves(old(tokens), old(born), old(trace), tokens, born, trace)
      ensures Idle(script) ==> NoUser(old(trace), trace)
      ensures Turn(old(trace), trace, w, polls, tokens[w.token].socket, h)
      ensures Serving(old(trace), trace, w, MayClose(h))
      ensures handled <= 2 && Handled(trace) == Handled(old(trace)) + handled
    {
      hide Clean, SocketTraces.Listed, AllListed, Agrees, Tracks, NoUser, FdOf, Survives, MayClose, Serving, Attends,
           Handled, Fresh, OnlyLookedAt;
      var t := w.token;
      TraceTells(t);
      var visit := Look(w, h);
      ghost var looked := trace;
      LooksKeepFresh(old(trace), looked, t, polls);
      LooksCount(old(trace), looked);
      NoUserStays(old(trace), looked);
      if !visit {
        return 0;
      }
      Serve(Visited(t, polls, w.fd, fds[tokens[t].socket]));
      ghost var visited := trace;
      HandledSnoc(looked, VisitOf(w, polls));
      handled := Attend(w, h, script);
      VisitServes(old(trace), looked, trace, w, polls, MayClose(h));
      NoUserThen(old(trace), looked, visited);
      NoUserThen(old(trace), visited, trace);
    }

    /** The sockets a poll beginning now would watch. */
    ghost function Watching(): seq<Watch>
      requires Valid()
      reads this
    {
      ListedDistinct(tokens, tcp, udp);
      WatchList(tcp + udp, tokens, fds)
    }

    /** The trace tells of each watched socket as it was watched, and no socket twice. */
    lemma WatchingKnown()
      requires Valid()
      ensures var (ws, socks) := (Watching(), SocketsOf(Watching(), tokens));
              && |socks| == |ws|
              && (forall k :: 0 <= k < |ws| ==>
                    FdOf(trace, socks[k]) == Some(ws[k].fd) && Survives(trace, ws[k].token))
              && (forall i, j :: 0 <= i < j < |ws| ==> socks[i] != socks[j])
    {
      hide Clean, SocketTraces.Listed, AllListed, Agrees, Tracks, FdOf, Survives, SocketsOf;
      var ws := Watching();
      ListedDistinct(tokens, tcp, udp);
      WatchListTokens(tcp + udp, tokens, fds);
      WatchListOpen(tcp + udp, tokens, fds);
      SocketsOfAre(ws, tokens);
      forall k | 0 <= k < |ws|
        ensures FdOf(trace, SocketsOf(ws, tokens)[k]) == Some(ws[k].fd) && Survives(trace, ws[k].token)
      {
        assert ws[k] in ws;
        TraceTells(ws[k].token);
      }
      forall i, j | 0 <= i < j < |ws|
        ensures SocketsOf(ws, tokens)[i] != SocketsOf(ws, tokens)[j]
      {
        assert ws[i] in ws && ws[j] in ws;
        if tokens[ws[i].token].socket == tokens[ws[j].token].socket {
          OneTokenPerSocket(tokens, tcp, udp, ws[i].token, ws[j].token);
        }
      }
    }

    /** Every registered socket that is open is watched, stream sockets before datagram
        sockets and each kind in the order of registration. */
    lemma WatchingIsComplete()
      requires Valid()
      ensures forall t :: 0 <= t < |tokens| && tokens[t].active && tokens[t].socket in fds ==>
                Watch(t, fds[tokens[t].socket]) in Watching()
      ensures forall i, j :: 0 <= i < j < |Watching()| ==> Earlier(tcp + udp, Watching()[i].token, Watching()[j].token)
    {
      hide Clean, SocketTraces.Listed, Agrees, Tracks, Earlier;
      var entries := tcp + udp;
      ListedDistinct(tokens, tcp, udp);
      forall i, j | 0 <= i < j < |Watching()|
        ensures Earlier(entries, Watching()[i].token, Watching()[j].token)
      {
        WatchListOrder(entries, tokens, fds, i, j);
      }
      forall t | 0 <= t < |tokens| && tokens[t].active && tokens[t].socket in fds
        ensures Watch(t, fds[tokens[t].socket]) in Watching()
      {
        assert t in entries;
        var i :| 0 <= i < |entries| && entries[i] == t;
        WatchListHolds(entries, tokens, fds, i);
      }
    }

    /** Their sockets, and that the trace tells of each of them as watched. */
    ghost function WatchedSockets(): (socks: seq<SocketRef>)
      requires Valid()
      reads this
      ensures |socks| == |Watching()|
      ensures forall k :: 0 <= k < |socks| ==>
                FdOf(trace, socks[k]) == Some(Watching()[k].fd) && Survives(trace, Watching()[k].token)
      ensures forall i, j :: 0 <= i < j < |socks| ==> socks[i] != socks[j]
    {
      WatchingKnown();
      SocketsOf(Watching(), tokens)
    }

    /** The snapshot: both registries, filtered to the sockets that are open. */
    method Snapshot() returns (watched: seq<Watch>)
      requires Valid()
      ensures (forall i :: 0 <= i < |tcp + udp| ==> (tcp + udp)[i] < |tokens|)
      ensures watched == WatchList(tcp + udp, tokens, fds)
    {
      ListedDistinct(tokens, tcp, udp);
      var entries := tcp + udp;
      watched := [];
      for i := 0 to |entries|
        invariant watched == WatchList(entries[..i], tokens, fds)
      {
        assert entries[..i + 1][..i] == entries[..i];
        var t := entries[i];
        if tokens[t].active && tokens[t].socket in fds {
          watched := watched + [Watch(t, fds[tokens[t].socket])];
        }
      }
      assert entries[..|entries|] == entries;
    }

    /** The dispatch loop over a snapshot.  cuts are the traces before each turn and after
        the last. */
    method Dispatch(watched: seq<Watch>, ghost entries: seq<nat>, hooks: nat -> Hooks, script: nat -> seq<UserOp>)
      returns (handled: nat, ghost cuts: seq<seq<Event>>)
      requires Valid() && DistinctTokens(watched) && Unvisited(trace, polls, watched, 0)
      requires forall w :: w in watched ==> w.token in entries && w.token < |tokens| && born[w.token] < polls
      modifies this`tokens, this`tcp, this`udp, this`born, this`trace, this`fds, this`callbacks
      ensures Valid() && Evolves(old(tokens), old(born), old(trace), tokens, born, trace)
      ensures Idle(script) ==> NoUser(old(trace), trace)
      ensures Involves(old(trace), trace, entries)
      ensures ClosesWarranted(old(trace), trace, watched, hooks, |watched|) && FromSnapshot(old(trace), trace, watched)
      ensures Turns(cuts, watched, polls, SocketsOf(watched, old(tokens)), hooks)
      ensures cuts[0] == old(trace) && cuts[|watched|] == trace && Ascending(cuts)
      ensures handled <= 2 * |watched| && Handled(trace) == Handled(old(trace)) + handled
    {
      hide Clean, SocketTraces.Listed, AllListed, Agrees, Tracks, Unvisited, Involves, Serving, Idle, DistinctTokens,
           ClosesWarranted, FromSnapshot, Fresh, OnlyLookedAt, Handled, Turn, NoUser, SocketsOf;
      InvolvesNothing(trace, entries);
      NothingReported(trace, watched, hooks);
      NoUserStays(trace, trace) by { NothingLooked(trace); }
      ghost var socks := SocketsOf(watched, tokens);
      SocketsOfAre(watched, tokens);
      cuts := [trace];
      handled := 0;
      for i := 0 to |watched|
        invariant Valid() && Evolves(old(tokens), old(born), old(trace), tokens, born, trace)
        invariant Idle(script) ==> NoUser(old(trace), trace)
        invariant Involves(old(trace), trace, entries)
        invariant Unvisited(trace, polls, watched, i)
        invariant ClosesWarranted(old(trace), trace, watched, hooks, i) && FromSnapshot(old(trace), trace, watched)
        invariant Turns(cuts, watched[..i], polls, socks[..i], hooks)
        invariant cuts[0] == old(trace) && cuts[i] == trace && Ascending(cuts)
        invariant handled <= 2 * i && Handled(trace) == Handled(old(trace)) + handled
      {
        ghost var before := trace;
        var w := watched[i];
        assert w in watched;
        FirstUnvisited(trace, polls, watched, i);
        var h := Visit(w, hooks(i), script);
        handled := handled + h;
        StillUnvisited(before, trace, polls, watched, i, MayClose(hooks(i)));
        InvolvesMore(old(trace), before, trace, entries, w, MayClose(hooks(i)));
        ReportedMore(old(trace), before, trace, watched, hooks, i);
        NoUserThen(old(trace), before, trace);
        assert tokens[w.token].socket == socks[i];
        TurnsMore(cuts, trace, watched, polls, socks, hooks, i);
        AscendingMore(cuts, trace);
        cuts := cuts + [trace];
      }
      assert watched[..|watched|] == watched && socks[..|watched|] == socks;
    }

    /** One poll.  waited is the outcome of the wait: negative on failure, zero when
        nothing is ready, buffered or due.  Only tokens registered when the poll
        began are involved; a poll inside a callback is refused; and each socket of the
        snapshot gets its turn, in order, which counts what it has handled. */
    method Poll(timeoutMs: int, waited: int, hooks: nat -> Hooks, script: nat -> seq<UserOp>)
      returns (handled: int, ghost cuts: seq<seq<Event>>)
      requires Valid()
      modifies this
      ensures Valid() && Evolves(old(tokens), old(born), old(trace), tokens, born, trace)
      ensures Idle(script) ==> NoUser(old(trace), trace)
      ensures Involves(old(trace), trace, old(tcp + udp))
      ensures ClosesWarranted(old(trace), trace, old(Watching()), hooks, |old(Watching())|)
      ensures FromSnapshot(old(trace), trace, old(Watching()))
      ensures timeoutMs < -1 || old(polling) ==> handled == -1 && trace == old(trace)
      ensures timeoutMs >= -1 && !old(polling) && waited <= 0 ==> handled == waited && trace == old(trace)
      ensures timeoutMs >= -1 && !old(polling) && waited > 0 ==>
                && Turns(cuts, old(Watching()), polls, old(WatchedSockets()), hooks)
                && cuts[0] == old(trace) && cuts[|old(Watching())|] == trace && Ascending(cuts)
                && 0 <= handled <= 2 * |old(tcp + udp)| && handled == Handled(trace) - Handled(old(trace))
      ensures polling == old(polling)
    {
      hide Clean, SocketTraces.Listed, AllListed, Agrees, Tracks, Unvisited, Involves, Serving, Idle, DistinctTokens,
           ClosesWarranted, FromSnapshot, Handled, Turns, NoUser, SocketsOf, Ascending;
      InvolvesNothing(trace, tcp + udp);
      NoReports(trace, Watching(), hooks);
      NoUserStays(trace, trace) by { NothingLooked(trace); }
      cuts := [trace];
      if timeoutMs < -1 || polling {
        return -1, cuts;
      }
      polling := true;
      var watched := Snapshot();
      assert watched == old(Watching());
      ListedDistinct(tokens, tcp, udp);
      WatchListTokens(tcp + udp, tokens, fds);
      WatchListOpen(tcp + udp, tokens, fds);
      PollBegins(trace, tokens, born, polls, watched);
      polls := polls + 1;
      if waited <= 0 {
        polling := false;
        return waited, cuts;
      }
      handled, cuts := Dispatch(watched, tcp + udp, hooks, script);
      polling := false;
    }
  }
}
