/** Where the transport falls short of what its users may expect: each state with a run
    that reaches it and every way into it and out of it. */
module TransportHazards {
  import opened Bytes
  import opened WriteQueue
  import opened Transport
  import opened TransportInvariant
  import opened TransportTheorems

  // ----- reconnecting inside a callback ------------------------------------

  lemma ConnectedState(k: Sock, o: Oracle)
    requires k.tls && !k.s.server
    ensures var k1 := Connect(k, Established, o);
            && k1.tls && k1.valid && k1.connected && !k1.blocking
            && k1.s.live && !k1.s.ready && !k1.s.shutRequested && !k1.s.sendNeedRead && k1.s.pendingLen == 0
            && k1.q == Queue([], 0, 0, k.q.limit) && k1.log == []
  {
    hide Pending, AsDiscarded, NotifiesOnClose;
    ClosedQueue(k, o);
    ClosedQueue(PrepareConnect(k, o), o);
  }

  lemma ClosedQueue(k: Sock, o: Oracle)
    ensures Close(k, o).q == Clear(k.q) && Close(k, o).tls == k.tls && !Close(k, o).valid
    ensures PrepareConnect(k, o).tls == k.tls && PrepareConnect(k, o).q.limit == k.q.limit
  {
    hide Pending, AsDiscarded, EndSession, NotifiesOnClose;
  }

  /** The poller re-checks only the descriptor number after a callback.  If the
      callback reconnects a client socket under the same number and queues data,
      the flush that follows runs before the new handshake and gives the data up
      without any OpenSSL call. */
  lemma ReconnectInCallbackLosesQueue(k: Sock, data: seq<byte>, f: Flags, o: Oracle)
    requires Inv(k) && k.tls && !k.s.server && data != [] && |data| <= k.q.limit && f.output
    ensures var k1 := Connect(k, Established, o);
            var k2 := QueueWrite(k1, data).k;
            && Valid(k2.q) && Pending(k2.q) == data && QueueReady(k2, f)
            && var r := Flush(k2, SEND_BUDGET, o);
               r.failed && r.k.log == [] && Valid(r.k.q) && Pending(r.k.q) == []
  {
    hide LogSafe, Accounted, ShutdownQuiet, PlaintextMatches, RetryRemembered, Connect, Flat, Coalesced, FlushFrom;
    ConnectedState(k, o);
    ConnectKeeps(k, Established, o);
    var k1 := Connect(k, Established, o);
    QueueWriteKeeps(k1, data);
    EmptyIffNoBytes(k1.q);
    PushAppends(k1.q, data);
    var k2 := QueueWrite(k1, data).k;
    FlushBeforeHandshakeLoses(k2, o);
    FlushFromKeeps(k2, SEND_BUDGET, 0, 0, o);
  }

  // ----- a shutdown behind a direct write to repeat ------------------------

  /** A peer's close_notify that arrives while a direct write waits to be repeated
      and bytes are queued leaves both stranded. */
  ghost predicate Stranded(k: Sock) {
    && k.tls && k.s.live && k.s.ready && k.s.shutRequested && k.q.bytes != 0
    && k.s.pendingLen != 0 && !k.s.pendingQueued
  }

  /** What ends the session of such a socket: its deadline, an error flag, or a hangup
      after the peer's close_notify. */
  predicate EndsStranded(k: Sock, f: Flags) {
    k.now >= k.s.shutDeadline || f.err || f.nval || (k.s.peerNotified && f.hup)
  }

  /** Until one of these, writes are refused, every visit goes on to read at most and the
      queue is not flushed.  Write interest is raised exactly if a read waits to write. */
  lemma StrandedUntilEnd(k: Sock, f: Flags, data: seq<byte>, o: Oracle)
    requires Stranded(k)
    ensures QueueWrite(k, data).k == k && DirectWrite(k, data, o).k == k
    ensures if EndsStranded(k, f) then PollStep(k, f, o).1 in {-1, 3}
            else PollStep(k, f, o) == (k, 1) && !QueueReady(k, f)
    ensures WantsWrite(k) <==> k.s.recvNeedWrite
  {
  }

  /** If a read waits to write, each POLLOUT leads to a read; and since OpenSSL answers
      every read after the close_notify with it again, the next POLLOUT does, too. */
  lemma StrandedSpins(k: Sock, f: Flags, o: Oracle)
    requires Stranded(k) && k.s.recvNeedWrite && f.output && !EndsStranded(k, f)
    requires k.s.peerNotified && o(k.calls).ssl.ZeroReturn?
    ensures WantsWrite(k) && PollStep(k, f, o) == (k, 1) && ReadReady(k, f)
    ensures var k' := PollReceive(k, o).k;
            Stranded(k') && k'.s.recvNeedWrite && k'.s.peerNotified && k'.calls == k.calls + 1
            && k'.s.shutDeadline == k.s.shutDeadline
  {
  }

  lemma FlushLeavesStranded(k: Sock, o: Oracle)
    requires Stranded(k) && Valid(k.q)
    ensures Flush(k, SEND_BUDGET, o).k == k
  {
    hide Flat, Coalesced;
    EmptyIffNoBytes(k.q);
  }

  /** Nothing but close, or a new connection, leads out of that state; until then the
      queue keeps its bytes. */
  lemma StrandedStays(k: Sock, op: Op, o: Oracle)
    requires Stranded(k) && Valid(k.q)
    ensures Stranded(Apply(k, op, o)) <==> !(op.OpClose? || (op.OpConnect? && !k.s.server))
    ensures Stranded(Apply(k, op, o)) ==>
              Apply(k, op, o).q == k.q.(limit := Apply(k, op, o).q.limit) && Apply(k, op, o).fates == k.fates
    ensures Stranded(Apply(k, op, o)) ==> Apply(k, op, o).s.server == k.s.server
  {
    hide Flat, Coalesced, Valid, Flush, Pending, AsDiscarded;
    match op
    case OpQueueWrite(data) =>
    case OpDirectWrite(data) =>
    case OpSetLimit(limit) =>
    case OpConnect(outcome) => ConnectEndsSession(k, outcome, o);
    case OpClose =>
    case OpBeginShutdown(ms) =>
    case OpRead =>
    case OpPollStep(f) =>
    case OpFlush => FlushLeavesStranded(k, o);
    case OpSetBlocking(_) =>
    case OpSetHandshakeTimeout(_) =>
    case OpSetStrict(_) =>
    case OpWait(_) =>
  }

  /** A client's connect leaves no session behind, or a new one before its handshake. */
  lemma ConnectEndsSession(k: Sock, outcome: Outcome, o: Oracle)
    ensures k.tls && k.s.server ==> Connect(k, outcome, o) == k
    ensures !(k.tls && k.s.server) && k.tls ==>
              !Connect(k, outcome, o).s.live || !Connect(k, outcome, o).s.ready
    ensures Connect(k, outcome, o).tls == k.tls
  {
    hide Pending, AsDiscarded;
  }

  /** However long it goes on, no stranded byte moves. */
  lemma {:induction false} StrandedForLong(k: Sock, ops: seq<Op>, o: Oracle)
    requires Inv(k) && Stranded(k)
    requires forall i :: 0 <= i < |ops| ==> !ops[i].OpClose? && !(ops[i].OpConnect? && !k.s.server)
    ensures var r := Run(k, ops, o); Stranded(r) && r.fates == k.fates && r.q == k.q.(limit := r.q.limit)
    decreases |ops|
  {
    hide Inv, Valid, Apply, Stranded;
    if ops != [] {
      assert Valid(k.q) by { InvIsValid(k); }
      StrandedStays(k, ops[0], o);
      ApplyKeeps(k, ops[0], o);
      StrandedForLong(Apply(k, ops[0], o), ops[1..], o);
    }
  }

  // ----- the way in --------------------------------------------------------

  predicate DirectToRepeat(s: Session) {
    s.pendingLen != 0 && !s.pendingQueued
  }

  /** What decides about being stranded, apart from the queue. */
  predicate SameStanding(k: Sock, k': Sock) {
    && k'.tls == k.tls && k'.s.live == k.s.live && k'.s.ready == k.s.ready && k'.s.server == k.s.server
    && k'.s.shutRequested == k.s.shutRequested && DirectToRepeat(k'.s) == DirectToRepeat(k.s)
  }

  /** A queued SSL_write leaves at most a queued write to repeat. */
  lemma QueuedWriteKeepsStanding(k: Sock, plain: seq<byte>, o: Oracle)
    requires plain != [] && !DirectToRepeat(k.s)
    ensures SameStanding(k, SslWrite(k, plain, true, o).k)
  {
    hide Digest;
  }

  lemma QueuedSendKeepsStanding(k: Sock, data: seq<byte>, o: Oracle)
    ensures SameStanding(k, PollSendQueued(k, data, o).k)
  {
    hide SslWrite, Digest;
    if data != [] && !DirectToRepeat(k.s) {
      if k.s.pendingLen == 0 {
        QueuedWriteKeepsStanding(k, data, o);
      } else if k.s.pendingLen <= |data| {
        QueuedWriteKeepsStanding(k, data[..k.s.pendingLen], o);
      }
    }
  }

  lemma StepKeepsStanding(k: Sock, left: nat, interrupts: nat, o: Oracle)
    requires Valid(k.q) && k.q.bytes != 0 && left != 0 && interrupts <= 4
    ensures SameStanding(k, FlushStep(k, left, interrupts, o).k)
  {
    hide Flat, Coalesced, PollSendQueued, Pending, AsDiscarded, AsWritten, Consume;
    EmptyIffNoBytes(k.q);
    var offer := Offer(k.q, left);
    OfferIsOldest(k.q, |offer|);
    SendKeepsQueue(k, offer, o);
    QueuedSendKeepsStanding(k, offer, o);
  }

  lemma {:induction false} FlushKeepsStanding(k: Sock, budget: nat, sent: nat, interrupts: nat, o: Oracle)
    requires Valid(k.q) && sent <= budget && interrupts <= 4
    ensures var f := FlushFrom(k, budget, sent, interrupts, o);
            SameStanding(k, f.k) && (k.q.bytes == 0 ==> f.k == k)
    decreases k.q.bytes, 5 - interrupts
  {
    hide Valid, FlushStep;
    if k.q.bytes != 0 && sent < budget {
      StepKeepsStanding(k, budget - sent, interrupts, o);
      match FlushStep(k, budget - sent, interrupts, o)
      case Retry(k') => FlushKeepsStanding(k', budget, sent, interrupts + 1, o);
      case Stop(_, _) =>
      case Progress(k', count) => FlushKeepsStanding(k', budget, sent + count, 0, o);
    }
  }

  lemma FlushNeverStrands(k: Sock, o: Oracle)
    requires Valid(k.q) && !Stranded(k)
    ensures !Stranded(Flush(k, SEND_BUDGET, o).k)
  {
    hide Valid, FlushFrom;
    if k.valid && !k.blocking {
      FlushKeepsStanding(k, SEND_BUDGET, 0, 0, o);
    }
  }

  /** The only way in, among all operations: a read that brings the peer's close_notify
      while a direct write waits to be repeated and bytes are queued. */
  lemma StrandedOnlyByPeerClose(k: Sock, op: Op, o: Oracle)
    requires Inv(k) && !Stranded(k)
    ensures Valid(k.q)
    ensures Stranded(Apply(k, op, o)) <==>
              op.OpRead? && k.tls && k.s.live && k.s.ready && k.q.bytes != 0 && DirectToRepeat(k.s) &&
              o(k.calls).ssl.ZeroReturn?
  {
    hide Flat, Coalesced, Flush, Pending, AsDiscarded, Accounted, LogSafe, PlaintextMatches, ShutdownQuiet, Digest,
         RetryMatches, RetryRemembered;
    match op
    case OpQueueWrite(data) =>
    case OpDirectWrite(data) =>
    case OpSetLimit(limit) =>
    case OpConnect(outcome) => ConnectEndsSession(k, outcome, o);
    case OpClose =>
    case OpBeginShutdown(ms) =>
    case OpRead =>
    case OpPollStep(f) =>
    case OpFlush => FlushNeverStrands(k, o);
    case OpSetBlocking(_) =>
    case OpSetHandshakeTimeout(_) =>
    case OpSetStrict(_) =>
    case OpWait(_) =>
  }

  // ----- runs that reach these states --------------------------------------

  /** OpenSSL answers as listed, and fails from then on. */
  function Script(answers: seq<SslAnswer>): Oracle {
    (n: nat) => Answer(-1, WouldBlock, if n < |answers| then answers[n] else Fatal, false, true)
  }

  const Writable: Flags := Flags(false, true, false, false, false)

  /** A client right after its handshake, which OpenSSL completed in its first call. */
  function Secured(now: int): Sock {
    var k := FreshClient(true, true, now);
    k.(connected := true, calls := 1, log := [HandshakeCall(Done(0), true, true)],
       s := k.s.(live := true, ready := true, handshakeDeadline := now + 5000 * NS_PER_MS))
  }

  const ConnectAndShake: seq<Op> := [OpConnect(Established), OpPollStep(Writable)]

  lemma ReachesSecured(now: int, answers: seq<SslAnswer>)
    requires answers != [] && answers[0] == Done(0)
    ensures var k := FreshClient(true, true, now); var o := Script(answers);
            && Valid(k.q) && Valid(Apply(k, OpConnect(Established), o).q)
            && Apply(Apply(k, OpConnect(Established), o), OpPollStep(Writable), o) == Secured(now)
  {
    var k := FreshClient(true, true, now);
    assert Pending(EmptyQueue) == [];
    assert AsDiscarded([]) == [];
  }

  /** A run goes on from where its first operation leads. */
  lemma RunOn(k: Sock, op: Op, rest: seq<Op>, o: Oracle)
    requires Inv(k)
    ensures Valid(k.q) && Inv(Apply(k, op, o)) && Run(k, [op] + rest, o) == Run(Apply(k, op, o), rest, o)
  {
    hide Inv, Apply, Valid;
    InvIsValid(k);
    ApplyKeeps(k, op, o);
    assert ([op] + rest)[1..] == rest;
  }

  lemma RunFromSecured(now: int, rest: seq<Op>, answers: seq<SslAnswer>)
    requires answers != [] && answers[0] == Done(0)
    ensures Initial(FreshClient(true, true, now)) && Inv(Secured(now))
    ensures Reach(FreshClient(true, true, now), ConnectAndShake + rest, Script(answers))
            == Run(Secured(now), rest, Script(answers))
  {
    hide Inv, Apply, Run, Valid, Secured;
    var k := FreshClient(true, true, now);
    var o := Script(answers);
    assert Initial(k);
    InitialInv(k);
    ReachesSecured(now, answers);
    var shake := [OpPollStep(Writable)] + rest;
    assert ConnectAndShake + rest == [OpConnect(Established)] + shake;
    RunOn(k, OpConnect(Established), shake, o);
    RunOn(Apply(k, OpConnect(Established), o), OpPollStep(Writable), rest, o);
  }

  lemma EmptyRun(k: Sock, o: Oracle)
    requires Inv(k)
    ensures Run(k, [], o) == k
  {
  }

  /** Stranding happens: connect, handshake, a direct write that has to wait, a queued
      write, and the peer's close_notify. */
  lemma StrandedIsReached(now: int, direct: seq<byte>, queued: seq<byte>)
    requires direct != [] && 0 < |queued| <= EmptyQueue.limit
    ensures Initial(FreshClient(true, true, now))
    ensures Stranded(Reach(FreshClient(true, true, now),
                           ConnectAndShake + [OpDirectWrite(direct), OpQueueWrite(queued), OpRead],
                           Script([Done(0), WantWrite, ZeroReturn])))
  {
    hide Inv, Run, Reach, Valid, Digest, Flat, Coalesced;
    var answers := [Done(0), WantWrite, ZeroReturn];
    var o := Script(answers);
    var ops := [OpDirectWrite(direct), OpQueueWrite(queued), OpRead];
    RunFromSecured(now, ops, answers);
    var k1 := Secured(now);
    assert ops == [OpDirectWrite(direct)] + [OpQueueWrite(queued), OpRead];
    RunOn(k1, OpDirectWrite(direct), [OpQueueWrite(queued), OpRead], o);
    var k2 := Apply(k1, OpDirectWrite(direct), o);
    assert [OpQueueWrite(queued), OpRead] == [OpQueueWrite(queued)] + [OpRead];
    RunOn(k2, OpQueueWrite(queued), [OpRead], o);
    var k3 := Apply(k2, OpQueueWrite(queued), o);
    assert [OpRead] == [OpRead] + [];
    RunOn(k3, OpRead, [], o);
    EmptyRun(Apply(k3, OpRead, o), o);
  }

  /** The same with a read that has to wait first: from then on the poller reads on
      every writable event until the session ends. */
  lemma SpinningIsReached(now: int, direct: seq<byte>, queued: seq<byte>)
    requires direct != [] && 0 < |queued| <= EmptyQueue.limit
    ensures Initial(FreshClient(true, true, now))
    ensures var k := Reach(FreshClient(true, true, now),
                           ConnectAndShake + [OpDirectWrite(direct), OpQueueWrite(queued), OpRead, OpRead],
                           Script([Done(0), WantWrite, WantWrite, ZeroReturn]));
            Stranded(k) && k.s.recvNeedWrite && k.s.peerNotified && !EndsStranded(k, Writable)
  {
    hide Inv, Run, Reach, Valid, Digest, Flat, Coalesced;
    var answers := [Done(0), WantWrite, WantWrite, ZeroReturn];
    var o := Script(answers);
    var ops := [OpDirectWrite(direct), OpQueueWrite(queued), OpRead, OpRead];
    RunFromSecured(now, ops, answers);
    var k1 := Secured(now);
    assert ops == [OpDirectWrite(direct)] + [OpQueueWrite(queued), OpRead, OpRead];
    RunOn(k1, OpDirectWrite(direct), [OpQueueWrite(queued), OpRead, OpRead], o);
    var k2 := Apply(k1, OpDirectWrite(direct), o);
    assert [OpQueueWrite(queued), OpRead, OpRead] == [OpQueueWrite(queued)] + [OpRead, OpRead];
    RunOn(k2, OpQueueWrite(queued), [OpRead, OpRead], o);
    var k3 := Apply(k2, OpQueueWrite(queued), o);
    assert [OpRead, OpRead] == [OpRead] + [OpRead];
    RunOn(k3, OpRead, [OpRead], o);
    var k4 := Apply(k3, OpRead, o);
    assert [OpRead] == [OpRead] + [];
    RunOn(k4, OpRead, [], o);
    EmptyRun(Apply(k4, OpRead, o), o);
  }

  /** Write interest is wasted: connect, handshake, a queued write and blocking mode.
      Every POLLOUT from then on is wanted and leads to no OpenSSL call. */
  lemma WastedInterestIsReached(now: int, queued: seq<byte>)
    requires 0 < |queued| <= EmptyQueue.limit
    ensures Initial(FreshClient(true, true, now))
    ensures var o := Script([Done(0)]);
            var k := Reach(FreshClient(true, true, now),
                           ConnectAndShake + [OpQueueWrite(queued), OpSetBlocking(true)], o);
            && k.tls && k.valid && k.blocking && k.s.ready && k.q.bytes != 0 && WantsWrite(k) && TimeoutMs(k) != 0
            && !ReadReady(k, Writable) && Valid(k.q) && Visit(k, Writable, o) == k
  {
    hide Inv, Run, Reach, Valid, Flat, Coalesced;
    var answers := [Done(0)];
    var o := Script(answers);
    var ops := [OpQueueWrite(queued), OpSetBlocking(true)];
    RunFromSecured(now, ops, answers);
    var k1 := Secured(now);
    assert ops == [OpQueueWrite(queued)] + [OpSetBlocking(true)];
    RunOn(k1, OpQueueWrite(queued), [OpSetBlocking(true)], o);
    var k2 := Apply(k1, OpQueueWrite(queued), o);
    assert [OpSetBlocking(true)] == [OpSetBlocking(true)] + [];
    RunOn(k2, OpSetBlocking(true), [], o);
    EmptyRun(Apply(k2, OpSetBlocking(true), o), o);
    InvIsValid(Apply(k2, OpSetBlocking(true), o));
  }
}
