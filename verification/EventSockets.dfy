/** The event socket as an object whose methods update it in place.  A plain TCP
    socket and a TLS socket differ in the constant tls, which selects the
    transport hooks.  Every method is tied to the Transport function of the same
    name, about which the run theorems are proved. */
module EventSockets {
  import opened Bytes
  import opened WriteQueue
  import opened Transport

  class EventSocket {
    const tls: bool

    // the descriptor
    var valid: bool
    var connected: bool
    var blocking: bool

    // the output queue and the TLS session
    var out: Queue
    var s: Session

    // the clock, and the number of calls made to the operating system or OpenSSL
    var now: int
    var calls: nat

    ghost var log: seq<SslEvent>
    ghost var accepted: seq<byte>
    ghost var fates: seq<Fate>
    ghost var failures: nat

    ghost function View(): Sock
      reads this
    {
      Sock(tls, valid, connected, blocking, out, s, now, calls, log, accepted, fates, failures)
    }

    /** A fresh descriptor, not yet connected; without one, or if it cannot be made
        nonblocking, the socket starts closed. */
    constructor (tls: bool, usable: bool, now: int)
      ensures View() == FreshClient(tls, usable, now)
    {
      this.tls := tls;
      valid, connected, blocking := usable, false, !usable;
      out := EmptyQueue;
      s := NoSession;
      this.now, calls := now, 0;
      log, accepted, fates, failures := [], [], [], 0;
    }

    /** An accepted descriptor; the server side of a TLS session starts at once. */
    constructor Accepted(tls: bool, now: int)
      ensures View() == AcceptedPeer(tls, now)
    {
      this.tls := tls;
      valid, connected, blocking := true, true, false;
      out := EmptyQueue;
      s := NoSession;
      this.now, calls := now, 0;
      log, accepted, fates, failures := [], [], [], 0;
      new;
      if tls {
        s := s.(strict := false);
        InitSession(true);
      }
    }

    // ----- the output queue ------------------------------------------------

    method QueueWrite(data: seq<byte>) returns (ok: bool)
      requires Valid(out)
      modifies this`out, this`accepted
      ensures Transport.Accepted(View(), ok) == Transport.QueueWrite(old(View()), data)
    {
      hide Flat, Pending, WriteQueue.Valid;
      if !valid || !connected || blocking || (tls && s.shutRequested) {
        return false;
      }
      if data == [] {
        return true;
      }
      if |data| > out.limit - out.bytes {
        return false;
      }
      var last := |out.chunks| - 1;
      if out.chunks != [] && |out.chunks[last]| < COALESCE_LIMIT && |data| <= COALESCE_LIMIT - |out.chunks[last]| {
        out := out.(chunks := out.chunks[last := out.chunks[last] + data]);
      } else {
        out := out.(chunks := out.chunks + [data]);
      }
      out := out.(bytes := out.bytes + |data|);
      accepted := accepted + data;
      return true;
    }

    method SetMaxQueuedBytes(limit: nat) returns (ok: bool)
      modifies this`out
      ensures Transport.Accepted(View(), ok) == Transport.SetMaxQueuedBytes(old(View()), limit)
    {
      if limit < out.bytes {
        return false;
      }
      out := out.(limit := limit);
      return true;
    }

    method DiscardQueue()
      modifies this`out, this`fates
      ensures View() == Drop(old(View()))
    {
      fates := fates + AsDiscarded(Pending(out));
      out := out.(chunks := [], frontOffset := 0, bytes := 0);
    }

    // ----- sending ---------------------------------------------------------

    /** A blocked write is remembered once; a repetition of it changes only the
        direction it waits for. */
    method NoteBlocked(plain: seq<byte>, queued: bool, needRead: bool, ghost w: Write)
      requires w.blocked && w.data == plain && w.queued == queued && w.needRead == needRead
      modifies this`s
      ensures s == AfterWrite(old(s), w)
    {
      hide Digest;
      if s.pendingLen == 0 {
        var digest := BytesHash(plain, |plain|);
        assert plain[..|plain|] == plain;
        s := s.(pendingLen := |plain|, pendingQueued := queued, pendingHash := digest);
      }
      s := s.(sendNeedRead := needRead);
    }

    /** A write that succeeded or failed for good leaves nothing to repeat. */
    method NoteDone(failed: bool, ghost w: Write)
      requires !w.blocked && (failed <==> w.taken == 0)
      modifies this`s
      ensures s == AfterWrite(old(s), w)
    {
      s := s.(pendingLen := 0, pendingQueued := false, pendingHash := 0, sendNeedRead := false);
      if failed {
        s := s.(failed := true);
      }
    }

    method NoteWrite(answer: SslAnswer, plain: seq<byte>, queued: bool, ghost w: Write)
      requires w.data == plain && w.queued == queued && (w.taken != 0 <==> answer.Done?)
      requires w.blocked <==> answer.WantRead? || answer.WantWrite?
      requires w.needRead <==> answer.WantRead?
      modifies this`s
      ensures s == AfterWrite(old(s), w)
    {
      hide AfterWrite;
      if answer.WantRead? || answer.WantWrite? {
        NoteBlocked(plain, queued, answer.WantRead?, w);
      } else {
        NoteDone(!answer.Done?, w);
      }
    }

    method SslWrite(plain: seq<byte>, queued: bool, o: Oracle) returns (count: int, errno: Errno)
      requires plain != []
      modifies this`calls, this`log, this`s
      ensures var r := Transport.SslWrite(old(View()), plain, queued, o);
              View() == r.k && count == r.count && errno == r.errno
    {
      hide AfterWrite;
      ghost var w := WriteMade(View(), plain, queued, o);
      var answer := o(calls).ssl;
      log := log + [WriteCall(w)];
      calls := calls + 1;
      NoteWrite(answer, plain, queued, w);
      if answer.Done? {
        return Granted(answer.count, |plain|), NoError;
      }
      return -1, if answer.WantRead? || answer.WantWrite? then WouldBlock else Broken;
    }

    method SendTls(data: seq<byte>, queued: bool, o: Oracle) returns (count: int, errno: Errno)
      modifies this`calls, this`log, this`s
      ensures Sent(View(), count, errno) == Transport.SendTls(old(View()), data, queued, o)
    {
      hide Transport.SslWrite, Digest;
      if !s.ready || !s.live || data == [] || (s.shutRequested && !queued) {
        return -1, Broken;
      }
      if !queued && s.pendingLen == 0 && out.bytes != 0 {
        return -1, WouldBlock;
      }
      var requested := |data|;
      if s.pendingLen != 0 {
        if queued != s.pendingQueued {
          return -1, WouldBlock;
        }
        if |data| < s.pendingLen || (!queued && |data| != s.pendingLen) {
          return -1, Broken;
        }
        var digest := BytesHash(data, s.pendingLen);
        if digest != s.pendingHash {
          return -1, Broken;
        }
        requested := s.pendingLen;
      }
      assert data[..|data|] == data;
      count, errno := SslWrite(data[..requested], queued, o);
    }

    method PlainSend(data: seq<byte>, queued: bool, o: Oracle) returns (count: int, errno: Errno)
      modifies this`calls, this`log
      ensures Sent(View(), count, errno) == Transport.PlainSend(old(View()), data, queued, o)
    {
      var a := o(calls);
      log := log + [SendCall(data, queued, a.sent, a.errno)];
      calls := calls + 1;
      if a.sent < 0 {
        return -1, a.errno;
      }
      return a.sent, NoError;
    }

    method PollSendQueued(data: seq<byte>, o: Oracle) returns (count: int, errno: Errno)
      modifies this`calls, this`log, this`s
      ensures Sent(View(), count, errno) == Transport.PollSendQueued(old(View()), data, o)
    {
      hide Transport.SendTls, Transport.PlainSend;
      if tls {
        count, errno := SendTls(data, true, o);
      } else {
        count, errno := PlainSend(data, true, o);
      }
    }

    /** A direct write: never buffered, possibly partial. */
    method DirectWrite(data: seq<byte>, o: Oracle) returns (count: int, errno: Errno)
      modifies this`calls, this`log, this`s
      ensures Sent(View(), count, errno) == Transport.DirectWrite(old(View()), data, o)
    {
      hide Transport.SendTls, Transport.PlainSend;
      if !valid || data == [] {
        return -1, Broken;
      }
      if tls {
        count, errno := SendTls(data, false, o);
      } else {
        count, errno := PlainSend(data, false, o);
      }
    }

    method InitSession(server: bool)
      modifies this`s, this`log
      ensures View() == Transport.InitSession(old(View()), server)
    {
      s := s.(live := true, server := server, ready := false, needWrite := !server,
              sendNeedRead := false, recvNeedWrite := false,
              pendingLen := 0, pendingQueued := false, pendingHash := 0);
      s := s.(failed := false, peerNotified := false,
              shutRequested := false, shutSent := false, shutNeedWrite := false, shutNeedRead := false,
              handshakeDeadline := now + s.handshakeTimeout * NS_PER_MS);
      log := [];
    }

    /** One round of the flush loop: the front bytes, as many as fit the budget
        left and a C int, are offered once. */
    method OfferFront(left: nat, interrupts: nat, o: Oracle) returns (outcome: OfferOutcome)
      requires Valid(out) && out.bytes != 0 && left != 0 && interrupts <= 4
      modifies this`out, this`s, this`calls, this`log, this`fates, this`failures
      ensures AsStep(View(), outcome) == FlushStep(old(View()), left, interrupts, o)
    {
      hide Flat, Coalesced, Pending, Transport.PollSendQueued, Consume;
      EmptyIffNoBytes(out);
      var available := |out.chunks[0]| - out.frontOffset;
      var requested := Request(out, left);
      OfferIsOldest(out, requested);
      ghost var k := View();
      var data := out.chunks[0][out.frontOffset..out.frontOffset + requested];
      SendKeepsQueue(k, data, o);
      var count, errno := PollSendQueued(data, o);
      if count < 0 {
        if errno == Interrupted && interrupts < 4 {
          return Again;
        }
        if errno == Interrupted || errno == WouldBlock {
          return Wait;
        }
        AbandonQueue();
        return GaveUp;
      }
      if count == 0 {
        return Wait;
      }
      if count > requested {
        AbandonQueue();
        return GaveUp;
      }
      TakeFront(count);
      return Wrote(count);
    }

    method AbandonQueue()
      modifies this`out, this`fates, this`failures
      ensures View() == Abandon(old(View()))
    {
      DiscardQueue();
      failures := failures + 1;
    }

    method TakeFront(count: nat)
      requires out.chunks != [] && out.frontOffset + count <= |out.chunks[0]| && count <= out.bytes
      modifies this`out, this`fates
      ensures View() == Took(old(View()), count)
    {
      fates := fates + AsWritten(out.chunks[0][out.frontOffset..out.frontOffset + count]);
      out := out.(frontOffset := out.frontOffset + count, bytes := out.bytes - count);
      if out.frontOffset == |out.chunks[0]| {
        out := out.(chunks := out.chunks[1..], frontOffset := 0);
      }
    }

    method FlushQueued(budget: nat, o: Oracle) returns (sent: nat, failed: bool, drained: bool)
      requires Valid(out)
      modifies this`out, this`s, this`calls, this`log, this`fates, this`failures
      ensures FlushResult(View(), sent, failed, drained) == Flush(old(View()), budget, o)
    {
      hide Flat, Coalesced, Pending, Transport.PollSendQueued, Took, Drop, WriteQueue.Valid, FlushStep;
      if !valid || blocking || budget == 0 {
        return 0, false, false;
      }
      var wasNonempty := out.bytes != 0;
      var interrupts := 0;
      sent, failed := 0, false;
      while out.bytes != 0 && sent < budget
        invariant Valid(out) && sent <= budget && interrupts <= 4 && !failed
        invariant FlushFrom(View(), budget, sent, interrupts, o) == FlushFrom(old(View()), budget, 0, 0, o)
        decreases out.bytes, 5 - interrupts
      {
        ghost var before := View();
        EmptyIffNoBytes(out);
        var outcome := OfferFront(budget - sent, interrupts, o);
        match outcome {
          case Again => interrupts := interrupts + 1;
          case Wait => break;
          case GaveUp => failed := true; break;
          case Wrote(n) => sent, interrupts := sent + n, 0;
        }
      }
      drained := wasNonempty && out.bytes == 0 && !failed;
    }

    // ----- connecting and closing ------------------------------------------

    method EndTls()
      modifies this`s
      ensures s == EndSession(old(s))
    {
      s := s.(live := false, ready := false);
      s := s.(pendingLen := 0, pendingQueued := false, pendingHash := 0);
      s := s.(failed := false, peerNotified := false);
      s := s.(shutRequested := false, shutSent := false, shutNeedWrite := false, shutNeedRead := false);
      s := s.(needWrite := false, sendNeedRead := false, recvNeedWrite := false);
    }

    /** One last close_notify, if the session may still send it. */
    method NotifyPeer(o: Oracle)
      modifies this`log, this`calls
      ensures View() == if NotifiesOnClose(old(View()))
                        then old(View()).(calls := old(calls) + 1,
                                          log := old(log) + [ShutdownCall(false, o(old(calls)).ssl,
                                                                          o(old(calls)).alertSent)])
                        else old(View())
    {
      if tls && s.live && s.ready && !s.failed && !s.peerNotified && !s.shutSent && valid {
        log := log + [ShutdownCall(false, o(calls).ssl, o(calls).alertSent)];
        calls := calls + 1;
      }
    }

    /** close(): the session, the queue and the descriptor go. */
    method Close(o: Oracle) returns (closed: bool)
      modifies this
      ensures View() == Transport.Close(old(View()), o) && closed == old(valid)
    {
      hide Pending, AsDiscarded, EndSession, NotifiesOnClose;
      NotifyPeer(o);
      if tls {
        EndTls();
      }
      DiscardQueue();
      closed := valid;
      if valid {
        valid, connected := false, false;
      }
    }

    method PrepareConnect(o: Oracle)
      modifies this
      ensures View() == Transport.PrepareConnect(old(View()), o)
    {
      hide Transport.Close;
      if tls {
        if s.live || connected {
          var _ := Close(o);
        }
        if valid {
          blocking := true;
        }
      }
    }

    method ConnectFrom(outcome: Outcome, o: Oracle) returns (ok: bool)
      modifies this
      ensures View() == Transport.ConnectFrom(old(View()), outcome, o)
      ensures ok <==> outcome == Established
    {
      hide Transport.Close, Transport.InitSession;
      if outcome == Unresolved {
        return false;
      }
      var _ := Close(o);
      if outcome != Established {
        return false;
      }
      valid, connected, blocking := true, true, false;
      log, accepted, fates, failures := [], [], [], 0;
      if tls {
        InitSession(false);
      }
      return true;
    }

    method Connect(outcome: Outcome, o: Oracle) returns (ok: bool)
      modifies this
      ensures View() == Transport.Connect(old(View()), outcome, o)
      ensures ok <==> outcome == Established && !(tls && old(s.server))
    {
      hide Transport.PrepareConnect, Transport.ConnectFrom;
      if tls && s.server {
        return false;
      }
      PrepareConnect(o);
      ok := ConnectFrom(outcome, o);
    }

    // ----- the poller's TLS hooks ------------------------------------------

    method NoteHandshake(a: Answer, accepted: bool)
      requires accepted == HandshakeAccepted(s, a)
      modifies this`s
      ensures s == AfterHandshake(old(s), a)
    {
      if accepted {
        s := s.(ready := true, needWrite := false);
      } else if a.ssl.WantRead? {
        s := s.(needWrite := false);
      } else if a.ssl.WantWrite? {
        s := s.(needWrite := true);
      }
    }

    method Handshake(o: Oracle) returns (code: int)
      modifies this`s, this`calls, this`log
      ensures (View(), code) == Transport.Handshake(old(View()), o)
    {
      hide AfterHandshake;
      var a := o(calls);
      log := log + [HandshakeCall(a.ssl, a.verified, Checks(s))];
      calls := calls + 1;
      var trusted := s.server || !s.strict || a.verified;
      NoteHandshake(a, a.ssl.Done? && trusted);
      code := if a.ssl.Done? then (if trusted then 2 else -1)
              else if a.ssl.WantRead? || a.ssl.WantWrite? then 0 else -1;
    }

    /** What SSL_read's answer does to the session: a peer close_notify starts our
        half of the shutdown unless it has already begun. */
    method NoteRead(a: SslAnswer)
      modifies this`s
      ensures s == AfterRead(old(s), a, now)
    {
      hide AfterRead;
      if a.Fatal? {
        NoteReadFailure(a);
      } else if a.ZeroReturn? {
        NotePeerClose(a);
      } else {
        NoteReadDirection(a);
      }
    }

    /** Data, or which way a read without data waits. */
    method NoteReadDirection(a: SslAnswer)
      requires a.Done? || a.WantRead? || a.WantWrite?
      modifies this`s
      ensures s == AfterRead(old(s), a, now)
    {
      s := s.(recvNeedWrite := a.WantWrite?);
    }

    method NoteReadFailure(a: SslAnswer)
      requires a.Fatal?
      modifies this`s
      ensures s == AfterRead(old(s), a, now)
    {
      s := s.(failed := true);
    }

    method NotePeerClose(a: SslAnswer)
      requires a.ZeroReturn?
      modifies this`s
      ensures s == AfterRead(old(s), a, now)
    {
      if s.shutRequested {
        s := s.(peerNotified := true);
      } else {
        s := s.(peerNotified := true, shutRequested := true,
                shutSent := false, shutNeedWrite := false, shutNeedRead := false,
                shutDeadline := now + PEER_CLOSE_TIMEOUT_MS * NS_PER_MS);
      }
    }

    method PollReceive(o: Oracle) returns (count: int, errno: Errno)
      modifies this`s, this`calls, this`log
      ensures Sent(View(), count, errno) == Transport.PollReceive(old(View()), o)
    {
      hide AfterRead;
      if !s.ready || !s.live {
        return -1, Broken;
      }
      var a := o(calls).ssl;
      log := log + [ReadCall(a, now)];
      calls := calls + 1;
      NoteRead(a);
      if a.Done? {
        return if a.count == 0 then 1 else a.count, NoError;
      }
      return -1, if a.Fatal? then Broken else WouldBlock;
    }

    method BeginGracefulShutdown(timeoutMs: int) returns (ok: bool)
      modifies this`s, this`log
      ensures Transport.Accepted(View(), ok) == BeginShutdown(old(View()), timeoutMs)
    {
      if timeoutMs < 100 || timeoutMs > 60000 || !s.ready || !s.live || !valid || s.failed ||
         s.peerNotified || (s.pendingLen != 0 && !s.pendingQueued) {
        return false;
      }
      if s.shutRequested {
        return false;
      }
      s := s.(shutRequested := true, shutSent := false, shutNeedWrite := false, shutNeedRead := false,
              shutDeadline := now + timeoutMs * NS_PER_MS);
      log := log + [ShutdownBegun(now, timeoutMs)];
      return true;
    }

    method NoteShutdown(a: Answer)
      modifies this`s
      ensures s == AfterShutdown(old(s), a)
    {
      hide AfterShutdown;
      if a.ssl == Done(0) {
        NoteAlertSent(a);
      } else if a.ssl.WantRead? || a.ssl.WantWrite? {
        NoteShutdownBlocked(a);
      } else {
        NoteShutdownEnd(a);
      }
    }

    /** Our alert is out; the peer's is awaited. */
    method NoteAlertSent(a: Answer)
      requires a.ssl == Done(0)
      modifies this`s
      ensures s == AfterShutdown(old(s), a)
    {
      s := s.(shutSent := true, shutNeedWrite := false, shutNeedRead := true);
    }

    method NoteShutdownBlocked(a: Answer)
      requires a.ssl.WantRead? || a.ssl.WantWrite?
      modifies this`s
      ensures s == AfterShutdown(old(s), a)
    {
      s := s.(shutSent := a.alertSent, shutNeedWrite := a.ssl.WantWrite?, shutNeedRead := a.ssl.WantRead?);
    }

    /** Complete, or failed, which matters only to a peer that has not closed. */
    method NoteShutdownEnd(a: Answer)
      requires a.ssl != Done(0) && !a.ssl.WantRead? && !a.ssl.WantWrite?
      modifies this`s
      ensures s == AfterShutdown(old(s), a)
    {
      if !a.ssl.Done? && !s.peerNotified {
        s := s.(failed := true);
      }
    }

    method PollShutdown(f: Flags, o: Oracle) returns (code: int)
      modifies this`s, this`calls, this`log
      ensures (View(), code) == Transport.PollShutdown(old(View()), f, o)
    {
      hide AfterShutdown;
      var a := o(calls);
      var peerNotified := s.peerNotified;
      log := log + [ShutdownCall(true, a.ssl, a.alertSent)];
      calls := calls + 1;
      NoteShutdown(a);
      if a.ssl.Done? {
        return if a.ssl.count != 0 then 3 else 0;
      }
      if a.ssl.WantRead? || a.ssl.WantWrite? {
        return if peerNotified && a.alertSent && f.hup then 3 else 0;
      }
      return if peerNotified then 3 else -1;
    }

    method MarkFailed()
      modifies this`s, this`log
      ensures View() == Transport.MarkFailed(old(View()))
    {
      s := s.(failed := true);
      log := log + [TransportError];
    }

    /** The branch of PollStep for a session whose shutdown has begun. */
    method ShutdownStep(f: Flags, o: Oracle) returns (code: int)
      modifies this`s, this`calls, this`log
      ensures (View(), code) == Transport.ShutdownStep(old(View()), f, o)
    {
      hide Transport.PollShutdown;
      if now >= s.shutDeadline {
        return -1;
      }
      if f.err || f.nval {
        if s.peerNotified {
          return 3;
        }
        MarkFailed();
        return -1;
      }
      if s.peerNotified && f.hup {
        return 3;
      }
      if out.bytes != 0 {
        return 1;
      }
      if s.shutNeedRead && !(f.input || f.hup) {
        return 0;
      }
      if s.shutNeedWrite && !f.output {
        return 0;
      }
      if !s.shutNeedRead && !s.shutNeedWrite && s.shutSent && !f.input {
        return 0;
      }
      if !s.shutNeedRead && !s.shutNeedWrite && !s.shutSent && !f.output {
        return 0;
      }
      code := PollShutdown(f, o);
    }

    method PollStep(f: Flags, o: Oracle) returns (code: int)
      modifies this`s, this`calls, this`log
      ensures (View(), code) == Transport.PollStep(old(View()), f, o)
    {
      hide Transport.ShutdownStep, Transport.Handshake;
      if !tls {
        return 1;
      }
      if s.live && !s.ready && now >= s.handshakeDeadline {
        return -1;
      }
      if !s.live {
        return -1;
      }
      if s.ready {
        if s.shutRequested {
          code := ShutdownStep(f, o);
          return;
        }
        if f.err || f.nval {
          MarkFailed();
          return -1;
        }
        return 1;
      }
      if f.err || f.nval || f.hup {
        return -1;
      }
      if (s.needWrite && !f.output) || (!s.needWrite && !(f.input || f.hup)) {
        return 0;
      }
      code := Handshake(o);
    }

    // ----- readiness -------------------------------------------------------

    predicate PollWantsWrite()
      reads this
      ensures PollWantsWrite() == WantsWrite(View())
    {
      if !tls then out.bytes != 0
      else if !s.ready then s.needWrite
      else if s.shutRequested && out.bytes == 0 then s.shutNeedWrite || (!s.shutSent && !s.shutNeedRead)
      else s.recvNeedWrite || (!s.sendNeedRead && !(s.pendingLen != 0 && !s.pendingQueued) && out.bytes != 0)
    }

    predicate PollReadReady(f: Flags)
      reads this
      ensures PollReadReady(f) == ReadReady(View(), f)
    {
      if !tls then f.input || f.hup
      else (!s.sendNeedRead && (f.input || f.hup)) || (s.recvNeedWrite && f.output)
    }

    predicate PollQueueReady(f: Flags)
      reads this
      ensures PollQueueReady(f) == QueueReady(View(), f)
    {
      if !tls then f.output
      else if s.pendingLen != 0 && !s.pendingQueued then false
      else out.bytes != 0 && (if s.sendNeedRead then f.input else f.output)
    }

    method PollTimeoutMs() returns (ms: int)
      ensures ms == TimeoutMs(View())
    {
      if !tls || !s.live || !valid {
        return -1;
      }
      if s.ready && s.shutRequested {
        if now >= s.shutDeadline {
          return 0;
        }
        return (s.shutDeadline - now) / NS_PER_MS + 1;
      }
      if s.ready {
        return -1;
      }
      if now >= s.handshakeDeadline {
        return 0;
      }
      return (s.handshakeDeadline - now) / NS_PER_MS + 1;
    }

    // ----- options and the clock -------------------------------------------

    method SetBlocking(flag: bool)
      modifies this`blocking
      ensures View() == SetOption(old(View()), OpSetBlocking(flag))
    {
      if valid {
        blocking := flag;
      }
    }

    method SetHandshakeTimeout(ms: int)
      modifies this`s
      ensures View() == SetOption(old(View()), OpSetHandshakeTimeout(ms))
    {
      if ms < 100 || ms > 60000 {
        return;
      }
      s := s.(handshakeTimeout := ms);
      if s.live && !s.ready {
        s := s.(handshakeDeadline := now + ms * NS_PER_MS);
      }
    }

    method SetPeerVerification(strict: bool)
      modifies this`s
      ensures View() == SetOption(old(View()), OpSetStrict(strict))
    {
      s := s.(strict := strict);
    }

    method PassTime(ns: nat)
      modifies this`now
      ensures View() == SetOption(old(View()), OpWait(ns))
    {
      now := now + ns;
    }

    /** One operation of a run. */
    method Perform(op: Op, o: Oracle)
      requires Valid(out)
      modifies this
      ensures View() == Apply(old(View()), op, o)
    {
      hide Transport.QueueWrite, Transport.DirectWrite, Transport.SetMaxQueuedBytes, Transport.Connect,
           Transport.Close, BeginShutdown, Transport.PollReceive, Transport.PollStep, Flush, WriteQueue.Valid,
           SetOption;
      match op
      case OpQueueWrite(data) => var _ := QueueWrite(data);
      case OpDirectWrite(data) => var _, _ := DirectWrite(data, o);
      case OpSetLimit(limit) => var _ := SetMaxQueuedBytes(limit);
      case OpConnect(outcome) => var _ := Connect(outcome, o);
      case OpClose => var _ := Close(o);
      case OpBeginShutdown(ms) => var _ := BeginGracefulShutdown(ms);
      case OpRead => var _, _ := PollReceive(o);
      case OpPollStep(f) => var _ := PollStep(f, o);
      case OpFlush => var _, _, _ := FlushQueued(SEND_BUDGET, o);
      case OpSetBlocking(flag) => SetBlocking(flag);
      case OpSetHandshakeTimeout(ms) => SetHandshakeTimeout(ms);
      case OpSetStrict(value) => SetPeerVerification(value);
      case OpWait(ns) => PassTime(ns);
    }
  }

  /** How one offer to the transport ended. */
  datatype OfferOutcome = Again | Wait | GaveUp | Wrote(count: nat)

  ghost function AsStep(k: Sock, outcome: OfferOutcome): Step {
    match outcome
    case Again => Retry(k)
    case Wait => Stop(k, false)
    case GaveUp => Stop(k, true)
    case Wrote(n) => Progress(k, n)
  }
}
