/** What the transport promises over every run of operations and every
    behaviour of the operating system and OpenSSL. */
module TransportTheorems {
  import opened Bytes
  import opened WriteQueue
  import opened Transport
  import opened TransportInvariant

  /** The socket after ops, from the moment it was constructed or accepted. */
  ghost function Reach(start: Sock, ops: seq<Op>, o: Oracle): Sock
    requires Initial(start)
  {
    InitialInv(start);
    Run(start, ops, o)
  }

  lemma ReachInv(start: Sock, ops: seq<Op>, o: Oracle)
    requires Initial(start)
    ensures Inv(Reach(start, ops, o))
  {
    InitialInv(start);
    RunKeeps(start, ops, o);
  }

  // ----- repeating a blocked SSL_write -------------------------------------

  /** OpenSSL's rule for its caller: the SSL_write that follows one answered with
      WANT_READ or WANT_WRITE is a repetition of it.  For queued data the octets
      are the same ones; for direct data, length and digest are. */
  lemma RetriesRepeat(start: Sock, ops: seq<Op>, o: Oracle, i: nat)
    requires Initial(start)
    requires i + 1 < |Writes(Reach(start, ops, o).log)|
    requires Writes(Reach(start, ops, o).log)[i].blocked
    ensures var ws := Writes(Reach(start, ops, o).log);
            && ws[i + 1].queued == ws[i].queued
            && |ws[i + 1].data| == |ws[i].data|
            && Digest(ws[i + 1].data) == Digest(ws[i].data)
            && (ws[i].queued ==> ws[i + 1].data == ws[i].data)
  {
    hide Reach, Writes, Digest;
    ReachInv(start, ops, o);
    assert Repeats(Writes(Reach(start, ops, o).log)[i], Writes(Reach(start, ops, o).log)[i + 1]);
  }

  /** What flush_queued offers next, with that much of its budget left. */
  function Offer(q: Queue, left: nat): seq<byte>
    requires Valid(q) && q.bytes != 0
  {
    EmptyIffNoBytes(q);
    q.chunks[0][q.frontOffset..q.frontOffset + Request(q, left)]
  }

  lemma OfferIsFront(k: Sock, left: nat)
    requires Inv(k) && k.q.bytes != 0 && 0 < left <= SEND_BUDGET && Enough(k, left)
    ensures var offer := Offer(k.q, left);
            offer != [] && FrontIs(k.q, offer) && Enough(k, |offer|) && |offer| <= SEND_BUDGET
  {
    hide LogSafe, Accounted, ShutdownQuiet, PlaintextMatches, RetryRemembered, Flat, Coalesced;
    EmptyIffNoBytes(k.q);
    RetryFitsOffer(k, left);
  }

  /** Each offer of a flush passes send_tls's comparison with the blocked write. */
  ghost predicate OffersMatch(k: Sock, budget: nat, sent: nat, interrupts: nat, o: Oracle)
    requires Valid(k.q) && sent <= budget && interrupts <= 4
    decreases k.q.bytes, 5 - interrupts
  {
    k.q.bytes != 0 && sent < budget ==>
      && (k.tls && k.s.pendingLen != 0 && k.s.pendingQueued ==>
            RetryMatches(k.s, Offer(k.q, budget - sent), true))
      && match FlushStep(k, budget - sent, interrupts, o) {
           case Retry(k') => OffersMatch(k', budget, sent, interrupts + 1, o)
           case Stop(_, _) => true
           case Progress(k', count) => OffersMatch(k', budget, sent + count, 0, o)
         }
  }

  lemma {:induction false} OffersMatchFrom(k: Sock, budget: nat, sent: nat, interrupts: nat, o: Oracle)
    requires Inv(k) && sent <= budget <= SEND_BUDGET && interrupts <= 4
    requires sent < budget ==> Enough(k, budget - sent)
    ensures OffersMatch(k, budget, sent, interrupts, o)
    decreases k.q.bytes, 5 - interrupts
  {
    hide LogSafe, Accounted, ShutdownQuiet, PlaintextMatches, FlushStep, Advanced, RetryMatches, Flat, Coalesced,
         Valid, Offer;
    if k.q.bytes != 0 && sent < budget {
      OfferIsFront(k, budget - sent);
      var offer := Offer(k.q, budget - sent);
      if k.tls && k.s.pendingLen != 0 && k.s.pendingQueued {
        assert k.s.live;
        QueuedRetryMatches(k, offer);
      }
      FlushStepKeeps(k, budget - sent, interrupts, o);
      match FlushStep(k, budget - sent, interrupts, o)
      case Retry(k') => OffersMatchFrom(k', budget, sent, interrupts + 1, o);
      case Stop(_, _) =>
      case Progress(k', count) => OffersMatchFrom(k', budget, sent + count, 0, o);
    }
  }

  /** No flush in any run ever meets the mismatch branch of send_tls. */
  lemma QueuedRetriesNeverMismatch(start: Sock, ops: seq<Op>, o: Oracle)
    requires Initial(start)
    ensures var k := Reach(start, ops, o);
            Valid(k.q) && OffersMatch(k, SEND_BUDGET, 0, 0, o)
  {
    hide Reach, OffersMatch, LogSafe, Accounted, ShutdownQuiet, PlaintextMatches, RetryRemembered;
    ReachInv(start, ops, o);
    OffersMatchFrom(Reach(start, ops, o), SEND_BUDGET, 0, 0, o);
  }

  // ----- the queue is a byte FIFO ------------------------------------------

  /** Every accepted byte is, in order, written, given up or still pending; the
      counter is the pending length and stays within the limit; what OpenSSL was
      handed from the queue is exactly the written part. */
  lemma QueueIsFifo(start: Sock, ops: seq<Op>, o: Oracle)
    requires Initial(start)
    ensures var k := Reach(start, ops, o);
            && k.accepted == Octets(k.fates) + Pending(k.q)
            && k.q.bytes == |Pending(k.q)| <= k.q.limit
            && WrittenOctets(k.fates) == (if k.tls then QueuedPlaintext(Writes(k.log)) else SystemTook(k.log))
            && (k.valid && k.failures == 0 ==> k.accepted == WrittenOctets(k.fates) + Pending(k.q))
  {
    hide Reach, Writes, QueuedPlaintext, WrittenOctets, Octets, LogSafe, Pending;
    ReachInv(start, ops, o);
  }

  /** A flush writes a prefix of the pending bytes, no longer than the budget; the rest
      stays queued, or is given up exactly when the flush fails; drained means a queue
      with bytes in it was written out completely. */
  ghost predicate WritesPrefix(k: Sock, f: FlushResult)
    requires Valid(k.q)
  {
    && Valid(f.k.q)
    && f.bytes <= SEND_BUDGET && f.bytes <= |Pending(k.q)|
    && WrittenOctets(f.k.fates) == WrittenOctets(k.fates) + Pending(k.q)[..f.bytes]
    && Pending(f.k.q) == (if f.failed then [] else Pending(k.q)[f.bytes..])
    && (f.drained <==> Pending(k.q) != [] && f.bytes == |Pending(k.q)| && !f.failed)
  }

  /** So does every flush of every run. */
  lemma FlushWritesPrefix(start: Sock, ops: seq<Op>, o: Oracle)
    requires Initial(start)
    ensures var k := Reach(start, ops, o);
            Valid(k.q) && WritesPrefix(k, Flush(k, SEND_BUDGET, o))
  {
    hide Reach, Inv, Valid, WritesPrefix, Flush;
    ReachInv(start, ops, o);
    InvIsValid(Reach(start, ops, o));
    EachFlushWritesPrefix(Reach(start, ops, o), o);
  }

  lemma EachFlushWritesPrefix(k: Sock, o: Oracle)
    requires Inv(k) && Valid(k.q)
    ensures WritesPrefix(k, Flush(k, SEND_BUDGET, o))
  {
    hide Inv, FlushFrom, WrittenOctets, Pending, Valid;
    PendingIsCounted(k.q);
    if k.valid && !k.blocking {
      NothingToRepeatBeyond(k);
      FlushFromKeeps(k, SEND_BUDGET, 0, 0, o);
      var f := FlushFrom(k, SEND_BUDGET, 0, 0, o);
      InvIsValid(f.k);
      PendingIsCounted(f.k.q);
    } else {
      StayAdvances(k, k);
    }
  }

  lemma PendingIsCounted(q: Queue)
    requires Valid(q)
    ensures q.bytes == |Pending(q)|
  {
  }

  /** A blocked queued write fits a whole budget. */
  lemma NothingToRepeatBeyond(k: Sock)
    requires Inv(k)
    ensures Enough(k, SEND_BUDGET)
  {
    hide LogSafe, Accounted, ShutdownQuiet, PlaintextMatches, RetryRemembered, Valid;
  }

  /** Direct writes never overtake: each SSL_write of direct data finds nothing
      queued, or repeats a blocked direct write. */
  lemma DirectNeverOvertakes(start: Sock, ops: seq<Op>, o: Oracle, i: nat)
    requires Initial(start)
    requires i < |Writes(Reach(start, ops, o).log)|
    requires !Writes(Reach(start, ops, o).log)[i].queued
    ensures var ws := Writes(Reach(start, ops, o).log);
            ws[i].outstanding == 0 || (i > 0 && !ws[i - 1].queued && ws[i - 1].blocked)
  {
    hide Reach, Writes;
    ReachInv(start, ops, o);
    var ws := Writes(Reach(start, ops, o).log);
    assert DirectInOrder(ws);
    if i > 0 {
      assert ws[i - 1] == ws[i - 1];
    }
  }

  // ----- shutdown ----------------------------------------------------------

  /** After any SSL_shutdown of a session nothing is written in that session. */
  lemma NoWriteFollowsShutdown(start: Sock, ops: seq<Op>, o: Oracle, i: nat, j: nat)
    requires Initial(start)
    requires i < j < |Reach(start, ops, o).log| && Reach(start, ops, o).log[i].ShutdownCall?
    ensures !Reach(start, ops, o).log[j].WriteCall?
  {
    hide Reach, Writes;
    ReachInv(start, ops, o);
    var k := Reach(start, ops, o);
    assert NoWriteAfterShutdown(k.log);
  }

  /** A TLS flush gives bytes up without a failed SSL_write exactly when it runs
      before the handshake is complete. */
  lemma FlushBeforeHandshakeLoses(k: Sock, o: Oracle)
    requires Inv(k) && k.tls
    ensures var f := Flush(k, SEND_BUDGET, o);
            f.failed && f.k.log == k.log <==> k.valid && !k.blocking && k.q.bytes != 0 && !k.s.ready
  {
    hide LogSafe, Accounted, ShutdownQuiet, PlaintextMatches, Flat, Coalesced, WrittenOctets, Octets;
    EmptyIffNoBytes(k.q);
    if k.valid && !k.blocking && k.q.bytes != 0 {
      var offer := Offer(k.q, SEND_BUDGET);
      RetryFitsOffer(k, SEND_BUDGET);
      if k.s.ready {
        FlushFailsLoudly(k, SEND_BUDGET, 0, 0, o);
      }
    }
  }

  /** The last OpenSSL call was a write that failed for good. */
  predicate FatalLast(log: seq<SslEvent>) {
    log != [] && match log[|log| - 1]
                 case WriteCall(w) => w.queued && !w.blocked && w.taken == 0
                 case _ => false
  }

  /** With a ready session, an offer fails for good only through a fatal SSL_write. */
  lemma SendFailsLoudly(k: Sock, data: seq<byte>, o: Oracle)
    requires Inv(k) && k.tls && k.s.ready && data != [] && FrontIs(k.q, data) && Enough(k, |data|)
    ensures var r := SendTls(k, data, true, o);
            && r.k.s.ready && |r.k.log| >= |k.log|
            && r.errno != Interrupted
            && (r.count < 0 && r.errno == Broken ==> |r.k.log| > |k.log| && FatalLast(r.k.log))
  {
    hide LogSafe, Accounted, ShutdownQuiet, PlaintextMatches, Valid, RetryMatches, Writes, Digest, PeerCloseSeen;
    if k.s.pendingLen != 0 && k.s.pendingQueued {
      QueuedRetryMatches(k, data);
    }
  }

  lemma StepFailsLoudly(k: Sock, left: nat, interrupts: nat, o: Oracle)
    requires Inv(k) && k.tls && k.s.ready && k.q.bytes != 0 && 0 < left <= SEND_BUDGET && interrupts <= 4
    requires Enough(k, left)
    ensures var step := FlushStep(k, left, interrupts, o);
            && step.k.tls && step.k.s.ready && |step.k.log| >= |k.log|
            && (step.Stop? && step.failed ==> |step.k.log| > |k.log| && FatalLast(step.k.log))
  {
    hide LogSafe, Accounted, ShutdownQuiet, PlaintextMatches, RetryRemembered, Flat, Coalesced, SendTls, Shape, Drop;
    EmptyIffNoBytes(k.q);
    OfferIsFront(k, left);
    var offer := Offer(k.q, left);
    OfferIsOldest(k.q, |offer|);
    SendFailsLoudly(k, offer, o);
    SendKeepsQueue(k, offer, o);
    TlsOfferKeeps(k, offer, o);
    DropOnlyQueue(SendTls(k, offer, true, o).k);
  }

  lemma DropOnlyQueue(k: Sock)
    ensures Drop(k) == k.(q := Drop(k).q, fates := Drop(k).fates)
  {
  }

  /** A flush of a ready session that fails ends in a fatal SSL_write. */
  lemma {:induction false} FlushFailsLoudly(k: Sock, budget: nat, sent: nat, interrupts: nat, o: Oracle)
    requires Inv(k) && k.tls && k.s.ready && sent <= budget <= SEND_BUDGET && interrupts <= 4
    requires sent < budget ==> Enough(k, budget - sent)
    ensures var f := FlushFrom(k, budget, sent, interrupts, o);
            f.failed ==> |f.k.log| > |k.log| && FatalLast(f.k.log)
    decreases k.q.bytes, 5 - interrupts
  {
    hide LogSafe, Accounted, ShutdownQuiet, PlaintextMatches, RetryRemembered, Shape, FlushStep, Advanced, Valid;
    if k.q.bytes != 0 && sent < budget {
      FlushStepKeeps(k, budget - sent, interrupts, o);
      StepFailsLoudly(k, budget - sent, interrupts, o);
      match FlushStep(k, budget - sent, interrupts, o)
      case Retry(k') => FlushFailsLoudly(k', budget, sent, interrupts + 1, o);
      case Stop(_, _) =>
      case Progress(k', count) => FlushFailsLoudly(k', budget, sent + count, 0, o);
    }
  }

  // ----- close evidence ----------------------------------------------------

  /** poll_step asks for an orderly set-level close only when OpenSSL has shown
      the peer's close_notify, and poll_receive never reports end of stream, so
      a truncated stream cannot look like an orderly close. */
  lemma OrderlyCloseNeedsCloseNotify(start: Sock, ops: seq<Op>, f: Flags, o: Oracle)
    requires Initial(start)
    ensures var k := Reach(start, ops, o);
            && PollReceive(k, o).count != 0
            && (PollStep(k, f, o).1 == 3 ==> PeerCloseSeen(PollStep(k, f, o).0.log))
  {
    hide Reach, LogSafe, Accounted, ShutdownQuiet, PlaintextMatches, RetryRemembered, PeerCloseSeen, Valid;
    ReachInv(start, ops, o);
    var k := Reach(start, ops, o);
    PeerCloseSnoc(k.log, ShutdownCall(true, o(k.calls).ssl, o(k.calls).alertSent));
  }

  // ----- write interest is productive --------------------------------------

  /** The poller's work on a TLS socket, up to the first point where it runs
      user code: poll_step, then a read, or else a flush. */
  function Visit(k: Sock, f: Flags, o: Oracle): Sock
    requires Valid(k.q)
  {
    var (k1, code) := PollStep(k, f, o);
    if code != 1 then k1
    else if ReadReady(k, f) then PollReceive(k, o).k
    else if QueueReady(k, f) then Flush(k, SEND_BUDGET, o).k
    else k
  }

  lemma StepVerdicts(k: Sock, f: Flags, o: Oracle)
    ensures PollStep(k, f, o).1 in {-1, 0, 1, 2, 3}
  {
  }

  /** poll_step lets application data flow without having touched anything. */
  lemma StepOneIsIdle(k: Sock, f: Flags, o: Oracle)
    ensures PollStep(k, f, o).1 == 1 ==> PollStep(k, f, o).0 == k
  {
  }

  /** The visit ends the session before anything is done for the write interest: a
      deadline is due, an error flag is up, or the peer has hung up and there is
      nothing left to say to it. */
  predicate EndsUnheard(k: Sock, f: Flags) {
    TimeoutMs(k) == 0 || f.err || f.nval || (f.hup && (!k.s.ready || (k.s.shutRequested && k.s.peerNotified)))
  }

  /** The application has switched the socket to blocking mode with bytes to flush and
      nothing to read. */
  predicate Wasted(k: Sock, f: Flags) {
    k.blocking && k.s.ready && k.q.bytes != 0 && !ReadReady(k, f)
  }

  /** A POLLOUT the socket asked for, whatever other flags come with it, leads to an
      OpenSSL call exactly unless the visit ends the session or a blocking-mode queue
      wastes it. */
  lemma WriteInterestIsProductive(start: Sock, ops: seq<Op>, f: Flags, o: Oracle)
    requires Initial(start)
    requires var k := Reach(start, ops, o); k.tls && k.valid && WantsWrite(k)
    requires f.output
    ensures var k := Reach(start, ops, o);
            && Valid(k.q)
            && (Visit(k, f, o).calls == k.calls <==> EndsUnheard(k, f) || Wasted(k, f))
            && (EndsUnheard(k, f) ==> PollStep(k, f, o).1 in {-1, 3})
  {
    hide Reach, LogSafe, Accounted, ShutdownQuiet, PlaintextMatches, Flat, Coalesced, PollShutdown, Handshake, Flush,
         RetryRemembered;
    ReachInv(start, ops, o);
    var k := Reach(start, ops, o);
    StepOneIsIdle(k, f, o);
    if k.s.ready && k.q.bytes != 0 && !ReadReady(k, f) {
      FlushCalls(k, o);
    }
    CallsCounted(k, f, o);
  }

  lemma CallsCounted(k: Sock, f: Flags, o: Oracle)
    ensures Handshake(k, o).0.calls == k.calls + 1
    ensures PollShutdown(k, f, o).0.calls == k.calls + 1
  {
  }

  /** With a ready session and no direct write to repeat, a flush of a nonempty
      queue reaches SSL_write, unless the socket is in blocking mode. */
  lemma FlushCalls(k: Sock, o: Oracle)
    requires Inv(k) && k.tls && k.valid && k.s.ready && k.q.bytes != 0
    requires !(k.s.pendingLen != 0 && !k.s.pendingQueued)
    ensures Flush(k, SEND_BUDGET, o).k.calls == k.calls <==> k.blocking
  {
    hide LogSafe, Accounted, ShutdownQuiet, PlaintextMatches, RetryRemembered, FlushStep, Flat, Coalesced, Shape;
    if !k.blocking {
      var step := FlushStep(k, SEND_BUDGET, 0, o);
      FirstOfferCalls(k, o);
      match step
      case Retry(k') => CallsGrow(k', SEND_BUDGET, 0, 1, o);
      case Stop(_, _) =>
      case Progress(k', count) => CallsGrow(k', SEND_BUDGET, count, 0, o);
    }
  }

  lemma FirstOfferCalls(k: Sock, o: Oracle)
    requires Inv(k) && k.tls && k.s.ready && k.q.bytes != 0
    requires !(k.s.pendingLen != 0 && !k.s.pendingQueued)
    ensures FlushStep(k, SEND_BUDGET, 0, o).k.calls > k.calls
  {
    hide LogSafe, Accounted, ShutdownQuiet, PlaintextMatches, Flat, Coalesced, Drop, Writes, SendTls, PeerCloseSeen;
    EmptyIffNoBytes(k.q);
    OfferIsFront(k, SEND_BUDGET);
    var offer := Offer(k.q, SEND_BUDGET);
    OfferIsOldest(k.q, |offer|);
    OfferIsShown(k, offer, o);
    SendKeepsQueue(k, offer, o);
    DropOnlyQueue(SendTls(k, offer, true, o).k);
  }

  lemma OfferIsShown(k: Sock, offer: seq<byte>, o: Oracle)
    requires RetryRemembered(k) && k.s.live && k.s.ready && offer != [] && FrontIs(k.q, offer)
    requires k.s.pendingLen != 0 ==> k.s.pendingQueued && |offer| >= k.s.pendingLen
    ensures SendTls(k, offer, true, o).k.calls > k.calls
  {
    hide Writes, Digest, RetryMatches, AfterWrite;
    if k.s.pendingLen != 0 {
      QueuedRetryMatches(k, offer);
    }
  }

  lemma StepCallsGrow(k: Sock, left: nat, interrupts: nat, o: Oracle)
    requires Valid(k.q) && k.q.bytes != 0 && left != 0 && interrupts <= 4
    ensures FlushStep(k, left, interrupts, o).k.calls >= k.calls
  {
    hide Flat, Coalesced, Drop, Digest, RetryMatches;
    EmptyIffNoBytes(k.q);
    var offer := Offer(k.q, left);
    OfferIsOldest(k.q, |offer|);
    SendKeepsQueue(k, offer, o);
    DropOnlyQueue(PollSendQueued(k, offer, o).k);
  }

  lemma {:induction false} CallsGrow(k: Sock, budget: nat, sent: nat, interrupts: nat, o: Oracle)
    requires Valid(k.q) && sent <= budget && interrupts <= 4
    ensures FlushFrom(k, budget, sent, interrupts, o).k.calls >= k.calls
    decreases k.q.bytes, 5 - interrupts
  {
    hide Valid, FlushStep;
    if k.q.bytes != 0 && sent < budget {
      StepCallsGrow(k, budget - sent, interrupts, o);
      match FlushStep(k, budget - sent, interrupts, o)
      case Retry(k') => CallsGrow(k', budget, sent, interrupts + 1, o);
      case Stop(_, _) =>
      case Progress(k', count) => CallsGrow(k', budget, sent + count, 0, o);
    }
  }

  // ----- deadlines ---------------------------------------------------------

  /** A due deadline ends the session at the next visit whatever the readiness;
      waiting out a reported timeout makes it due, and one millisecond less
      would not yet have passed it. */
  lemma DeadlinesFire(k: Sock, f: Flags, o: Oracle)
    requires k.tls && TimeoutMs(k) >= 0
    ensures TimeoutMs(k) == 0 ==> PollStep(k, f, o) == (k, -1)
    ensures TimeoutMs(k) > 0 ==>
              && TimeoutMs(k.(now := k.now + TimeoutMs(k) * NS_PER_MS)) == 0
              && k.now + (TimeoutMs(k) - 1) * NS_PER_MS
                 <= (if k.s.ready then k.s.shutDeadline else k.s.handshakeDeadline)
  {
  }
}
