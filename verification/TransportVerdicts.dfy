/** What poll_step decides for a TLS session, and what the poller does about it: each
    verdict in terms of the log of the session and of the readiness that came with it. */
module TransportVerdicts {
  import opened Bytes
  import opened WriteQueue
  import opened Transport
  import opened TransportInvariant
  import opened TransportTheorems
  import opened TransportHistory
  import opened TransportAnswers
  import TransportHazards
  import opened Wrappers

  // ----- the handshake -----------------------------------------------------

  /** The certificate, if it was to be verified, was not. */
  predicate Untrusted(e: SslEvent) {
    e.HandshakeCall? && e.answer.Done? && e.checked && !e.verified
  }

  /** Nothing ends the handshake and the readiness it waits for is there. */
  predicate ShakesNow(k: Sock, f: Flags) {
    && k.now < k.s.handshakeDeadline && !f.err && !f.nval && !f.hup
    && (if ShakeNeedsOutput(k.log, k.s.server) then f.output else f.input)
  }

  /** Until a handshake has secured the session, a visit makes one more handshake call
      exactly if its readiness has come.  The session becomes ready, and the verdict is 2,
      exactly if that call secures it; an untrusted certificate ends it. */
  lemma HandshakeVerdict(start: Sock, ops: seq<Op>, f: Flags, o: Oracle)
    requires Initial(start)
    requires var k := Reach(start, ops, o); k.tls && k.s.live && !Seen(k.log, Secures)
    ensures var k := Reach(start, ops, o);
            var (k', code) := PollStep(k, f, o);
            var a := o(k.calls);
            var e := HandshakeCall(a.ssl, a.verified, !k.s.server && k.s.strict);
            && (ShakesNow(k, f) ==>
                  && k'.log == k.log + [e]
                  && (k'.s.ready <==> Secures(e))
                  && code == (if Secures(e) then 2 else if ShakeWaits(e) then 0 else -1)
                  && (Untrusted(e) ==> code == -1 && !k'.s.ready))
            && (!ShakesNow(k, f) ==>
                  && k' == k
                  && code == (if k.now >= k.s.handshakeDeadline || f.err || f.nval || f.hup then -1 else 0))
  {
    hide Reach, Inv, Hist, Seen, Latest, Handshake, Secures, ShakeWaits, Untrusted, ShakeNeedsOutput, ShutdownStep,
         ReadNeedsOutput, WriteNeedsInput, AlertIs, ShutdownEndsAt;
    ReachReads(start, ops, o);
    var k := Reach(start, ops, o);
    SessionByLog(k);
    WaitsByLog(k);
    ShakeAnswers(k, o);
  }

  lemma ShakeAnswers(k: Sock, o: Oracle)
    requires !k.s.ready
    ensures var (k', code) := Handshake(k, o);
            var e := HandshakeCall(o(k.calls).ssl, o(k.calls).verified, !k.s.server && k.s.strict);
            && k'.log == k.log + [e]
            && (k'.s.ready <==> Secures(e))
            && code == (if Secures(e) then 2 else if ShakeWaits(e) then 0 else -1)
            && (Untrusted(e) ==> code == -1 && !k'.s.ready)
  {
  }

  /** Which way the session of a reachable socket waits, in terms of its log. */
  lemma WaitsByLog(k: Sock)
    requires Hist(k) && k.tls && k.s.live
    ensures k.s.ready <==> Seen(k.log, Secures)
    ensures k.s.needWrite <==> !k.s.ready && ShakeNeedsOutput(k.log, k.s.server)
    ensures k.s.recvNeedWrite <==> ReadNeedsOutput(k.log)
    ensures k.s.sendNeedRead <==> WriteNeedsInput(k.log)
    ensures k.s.peerNotified <==> Seen(k.log, PeerCloses)
    ensures k.s.shutRequested <==> Seen(k.log, StartsShutdown)
    ensures AlertIs(k.log, k.s.shutSent, k.s.shutNeedRead, k.s.shutNeedWrite)
    ensures ShutdownEndsAt(k.log, k.s.shutDeadline)
    ensures k.s.failed <==> Seen(k.log, Breaks) || ShutdownBroke(k.log)
  {
    hide Latest, Earliest, Seen, SecuredFirst, ShutdownBroke;
  }

  /** The verdict of a visit is 2 exactly if it has just completed a handshake, verified if
      verification was in force. */
  lemma ConnectedMeansSecured(start: Sock, ops: seq<Op>, f: Flags, o: Oracle)
    requires Initial(start)
    ensures var k := Reach(start, ops, o);
            var (k', code) := PollStep(k, f, o);
            code == 2 <==> |k'.log| > |k.log| && Secures(k'.log[|k.log|])
  {
    hide Reach, Inv, Hist, Seen, Latest, ShutdownStep;
    ReachReads(start, ops, o);
    var k := Reach(start, ops, o);
    if k.tls && k.s.live && !k.s.ready {
      SessionByLog(k);
      HandshakeVerdict(start, ops, f, o);
    } else {
      ReadyStepShakesNot(k, f, o);
    }
  }

  lemma ReadyStepShakesNot(k: Sock, f: Flags, o: Oracle)
    requires !(k.tls && k.s.live && !k.s.ready)
    ensures var (k', code) := PollStep(k, f, o);
            && code != 2 && |k'.log| >= |k.log|
            && (k'.log == k.log || (|k'.log| == |k.log| + 1 && !k'.log[|k.log|].HandshakeCall?))
  {
  }

  // ----- an open session ---------------------------------------------------

  /** A session that is up and not closing hands every visit on to the application's data,
      unless an error flag ends it. */
  lemma OpenVerdict(start: Sock, ops: seq<Op>, f: Flags, o: Oracle)
    requires Initial(start)
    requires var k := Reach(start, ops, o);
             k.tls && k.s.live && Seen(k.log, Secures) && !Seen(k.log, StartsShutdown)
    ensures var k := Reach(start, ops, o);
            var (k', code) := PollStep(k, f, o);
            if f.err || f.nval then code == -1 && k'.log == k.log + [TransportError] && k'.s.failed
            else code == 1 && k' == k
  {
    hide Reach, Inv, Hist, Seen, Latest;
    ReachReads(start, ops, o);
    SessionByLog(Reach(start, ops, o));
  }

  // ----- the shutdown ------------------------------------------------------

  /** The direction the next SSL_shutdown waits for: output until our alert is on its way,
      and then what the last one asked for. */
  predicate AlertReady(log: seq<SslEvent>, f: Flags) {
    match Latest(log, AlertMoves)
    case None => f.output
    case Some(e) => e.ShutdownCall? && if e.answer.WantWrite? then f.output else f.input || f.hup
  }

  /** The transport is gone: there is nothing more to say to the peer. */
  predicate Gone(k: Sock, f: Flags) {
    f.err || f.nval || (Seen(k.log, PeerCloses) && f.hup)
  }

  /** SSL_shutdown is called exactly when the session is closing in time, every queued octet
      is out and the readiness it waits for has come. */
  predicate AlertsNow(k: Sock, f: Flags) {
    k.now < k.s.shutDeadline && !Gone(k, f) && Pending(k.q) == [] && AlertReady(k.log, f)
  }

  /** How a visit to a closing session goes on. */
  lemma ClosingVerdict(start: Sock, ops: seq<Op>, f: Flags, o: Oracle)
    requires Initial(start)
    requires var k := Reach(start, ops, o);
             k.tls && k.s.live && Seen(k.log, Secures) && Seen(k.log, StartsShutdown)
    ensures var k := Reach(start, ops, o);
            var (k', code) := PollStep(k, f, o);
            var a := o(k.calls);
            var closed := Seen(k.log, PeerCloses);
            && (AlertsNow(k, f) <==> k'.calls == k.calls + 1)
            && (AlertsNow(k, f) ==>
                  && k'.log == k.log + [ShutdownCall(true, a.ssl, a.alertSent)]
                  && code == AlertVerdict(a, closed, f))
            && (!AlertsNow(k, f) ==>
                  && k' == (if k.now < k.s.shutDeadline && (f.err || f.nval) && !closed then MarkFailed(k) else k)
                  && code == (if k.now >= k.s.shutDeadline then -1
                              else if Gone(k, f) then (if closed then 3 else -1)
                              else if Pending(k.q) != [] then 1 else 0))
  {
    hide Reach, Inv, Hist, Seen, Latest, Pending, PollShutdown, ReadNeedsOutput, WriteNeedsInput, ShakeNeedsOutput;
    ReachReads(start, ops, o);
    var k := Reach(start, ops, o);
    SessionByLog(k);
    WaitsByLog(k);
    InvCounts(k);
    AlertSaysSo(k, f);
    ShutdownAnswers(k, f, o);
  }

  /** The poller's own test of the direction is the one the log gives. */
  lemma AlertSaysSo(k: Sock, f: Flags)
    requires AlertIs(k.log, k.s.shutSent, k.s.shutNeedRead, k.s.shutNeedWrite)
    ensures AlertReady(k.log, f) <==>
              && (k.s.shutNeedRead ==> f.input || f.hup)
              && (k.s.shutNeedWrite ==> f.output)
              && (!k.s.shutNeedRead && !k.s.shutNeedWrite ==> (if k.s.shutSent then f.input else f.output))
  {
    hide Latest;
  }

  /** An SSL_shutdown that ends the exchange is an orderly close; so is any answer at all
      once the peer's close_notify was read and our alert is out or cannot go out any more. */
  function AlertVerdict(a: Answer, closed: bool, f: Flags): int {
    if a.ssl.Done? then (if a.ssl.count > 0 then 3 else 0)
    else if a.ssl.WantRead? || a.ssl.WantWrite? then (if closed && a.alertSent && f.hup then 3 else 0)
    else if closed then 3 else -1
  }

  lemma ShutdownAnswers(k: Sock, f: Flags, o: Oracle)
    ensures var (k', code) := PollShutdown(k, f, o);
            && k'.calls == k.calls + 1
            && k'.log == k.log + [ShutdownCall(true, o(k.calls).ssl, o(k.calls).alertSent)]
            && code == AlertVerdict(o(k.calls), k.s.peerNotified, f)
  {
    hide AfterShutdown;
  }

  // ----- reading -----------------------------------------------------------

  /** A read of an open session is one SSL_read.  It reports data exactly if there was
      some, and an error exactly if SSL_read failed for good: the peer's close_notify and
      the two waits look alike to the caller. */
  lemma ReadAnswer(start: Sock, ops: seq<Op>, o: Oracle)
    requires Initial(start) && Reach(start, ops, o).tls
    ensures var k := Reach(start, ops, o);
            var r := PollReceive(k, o);
            var a := o(k.calls).ssl;
            if k.s.live && Seen(k.log, Secures) then
              && r.k.log == k.log + [ReadCall(a, k.now)]
              && (r.count > 0 <==> a.Done?) && (a.Done? && a.count > 0 ==> r.count == a.count)
              && (!a.Done? ==> r.count == -1)
              && (r.errno == Broken <==> a.Fatal?) && (r.errno == NoError <==> a.Done?)
            else r == Sent(k, -1, Broken)
  {
    hide Reach, Inv, Hist, Seen, Latest, AfterRead;
    ReachReads(start, ops, o);
    var k := Reach(start, ops, o);
    if k.s.live {
      SessionByLog(k);
    } else {
      DeadSessionIsNotReady(k);
    }
  }

  /** A visit resumes what waits, in the direction it waits for: with that readiness the
      poller reads again, or else it flushes, and the flush repeats the blocked write. */
  lemma WaitsAreResumed(start: Sock, ops: seq<Op>, f: Flags, o: Oracle)
    requires Initial(start)
    requires var k := Reach(start, ops, o);
             k.tls && k.s.live && Seen(k.log, Secures) && !Seen(k.log, StartsShutdown) && !k.blocking
             && !f.err && !f.nval
    ensures var k := Reach(start, ops, o);
            && Valid(k.q)
            && var v := Visit(k, f, o);
            && ((if WriteNeedsInput(k.log) then ReadNeedsOutput(k.log) && f.output
                 else f.input || f.hup || (ReadNeedsOutput(k.log) && f.output)) ==>
                  v.log == k.log + [ReadCall(o(k.calls).ssl, k.now)])
            && ((if WriteNeedsInput(k.log) then f.input && !(ReadNeedsOutput(k.log) && f.output)
                 else f.output && !f.input && !f.hup && !ReadNeedsOutput(k.log))
                && ToRepeat(k.log).Some? && ToRepeat(k.log).value.queued ==>
                  |v.log| > |k.log| && v.log[|k.log|].WriteCall?
                  && v.log[|k.log|].w.queued && v.log[|k.log|].w.data == ToRepeat(k.log).value.data)
  {
    hide Reach, Inv, Hist, Seen, Latest, Flush, ReadNeedsOutput, WriteNeedsInput, ShakeNeedsOutput, AlertIs, ToRepeat,
         ShutdownEndsAt, Valid;
    ReachReads(start, ops, o);
    var k := Reach(start, ops, o);
    SessionByLog(k);
    WaitsByLog(k);
    InvCounts(k);
    if k.s.pendingQueued {
      QueuedRetryIsFirst(k, o);
    }
  }

  lemma StepLogGrows(k: Sock, left: nat, interrupts: nat, o: Oracle)
    requires Valid(k.q) && k.q.bytes != 0 && left != 0 && interrupts <= 4
    ensures k.log <= FlushStep(k, left, interrupts, o).k.log
  {
    hide Flat, Coalesced, Pending, AsDiscarded, AsWritten, Consume, PollSendQueued;
    EmptyIffNoBytes(k.q);
    var offer := Offer(k.q, left);
    OfferIsOldest(k.q, |offer|);
    SendKeepsQueue(k, offer, o);
    SendLogGrows(k, offer, o);
  }

  lemma SendLogGrows(k: Sock, data: seq<byte>, o: Oracle)
    ensures k.log <= PollSendQueued(k, data, o).k.log
  {
    hide Digest, RetryMatches, AfterWrite, WriteMade;
  }

  lemma {:induction false} LogGrows(k: Sock, budget: nat, sent: nat, interrupts: nat, o: Oracle)
    requires Valid(k.q) && sent <= budget && interrupts <= 4
    ensures k.log <= FlushFrom(k, budget, sent, interrupts, o).k.log
    decreases k.q.bytes, 5 - interrupts
  {
    hide Valid, FlushStep;
    if k.q.bytes != 0 && sent < budget {
      StepLogGrows(k, budget - sent, interrupts, o);
      match FlushStep(k, budget - sent, interrupts, o)
      case Retry(k') => LogGrows(k', budget, sent, interrupts + 1, o);
      case Stop(_, _) =>
      case Progress(k', count) => LogGrows(k', budget, sent + count, 0, o);
    }
  }

  lemma FrontWaits(k: Sock)
    requires Inv(k) && k.tls && k.s.live && k.s.pendingQueued
    ensures Valid(k.q) && k.q.bytes != 0 && k.s.pendingLen != 0 && ToRepeat(k.log).Some?
  {
    hide LogSafe, Accounted, ShutdownQuiet, PlaintextMatches, Flat, Coalesced, Writes, Digest;
    EmptyIffNoBytes(k.q);
  }

  lemma FirstOfferRepeats(k: Sock, o: Oracle)
    requires Inv(k) && k.tls && k.s.live && k.s.ready && k.s.pendingQueued && k.q.bytes != 0 && k.s.pendingLen != 0
    requires ToRepeat(k.log).Some?
    ensures Valid(k.q)
    ensures var l := FlushStep(k, SEND_BUDGET, 0, o).k.log;
            && |l| > |k.log| && l[|k.log|].WriteCall?
            && l[|k.log|].w.queued && l[|k.log|].w.data == ToRepeat(k.log).value.data
  {
    hide LogSafe, Accounted, ShutdownQuiet, PlaintextMatches, Flat, Coalesced, Drop, Writes, PeerCloseSeen, SendTls,
         RetryRemembered, ToRepeat;
    EmptyIffNoBytes(k.q);
    NothingToRepeatBeyond(k);
    OfferIsFront(k, SEND_BUDGET);
    var offer := Offer(k.q, SEND_BUDGET);
    OfferIsOldest(k.q, |offer|);
    OfferedRetry(k, offer, o);
    SendKeepsQueue(k, offer, o);
    DropOnlyQueue(SendTls(k, offer, true, o).k);
  }

  lemma OfferedRetry(k: Sock, offer: seq<byte>, o: Oracle)
    requires RetryRemembered(k) && k.s.live && k.s.ready && k.s.pendingQueued && k.s.pendingLen != 0
    requires ToRepeat(k.log).Some? && FrontIs(k.q, offer) && |offer| >= k.s.pendingLen
    ensures var l := SendTls(k, offer, true, o).k.log;
            && |l| == |k.log| + 1 && l[|k.log|].WriteCall?
            && l[|k.log|].w.queued && l[|k.log|].w.data == ToRepeat(k.log).value.data
  {
    hide Writes, Digest, RetryMatches, AfterWrite;
    QueuedRetryMatches(k, offer);
  }

  /** A flush behind a blocked queued write begins by repeating it. */
  lemma QueuedRetryIsFirst(k: Sock, o: Oracle)
    requires Inv(k) && k.tls && k.s.live && k.s.ready && k.valid && !k.blocking && k.s.pendingQueued
    ensures Valid(k.q) && k.q.bytes != 0 && k.s.pendingLen != 0 && ToRepeat(k.log).Some?
    ensures var l := Flush(k, SEND_BUDGET, o).k.log;
            && |l| > |k.log| && l[|k.log|].WriteCall?
            && l[|k.log|].w.queued && l[|k.log|].w.data == ToRepeat(k.log).value.data
  {
    hide LogSafe, Accounted, ShutdownQuiet, PlaintextMatches, FlushStep, Flat, Coalesced, Writes, Shape, RetryMatches;
    FrontWaits(k);
    var step := FlushStep(k, SEND_BUDGET, 0, o);
    FirstOfferRepeats(k, o);
    match step
    case Retry(k') => LogGrows(k', SEND_BUDGET, 0, 1, o);
    case Stop(_, _) =>
    case Progress(k', count) => LogGrows(k', SEND_BUDGET, count, 0, o);
  }

  // ----- interest in POLLOUT -----------------------------------------------

  /** poll(2) is asked for POLLOUT exactly if a visit with nothing but POLLOUT has a use
      for it: some OpenSSL call is made. */
  lemma InterestIsExact(start: Sock, ops: seq<Op>, o: Oracle)
    requires Initial(start)
    requires var k := Reach(start, ops, o); k.tls && k.s.live && TimeoutMs(k) != 0 && !k.blocking
    ensures var k := Reach(start, ops, o);
            Valid(k.q) && (WantsWrite(k) <==> Visit(k, TransportHazards.Writable, o).calls != k.calls)
  {
    hide Reach, Inv, WantsWrite, Visit, TimeoutMs, Valid;
    ReachInv(start, ops, o);
    InvIsValid(Reach(start, ops, o));
    InterestIsUseful(Reach(start, ops, o), o);
  }

  lemma InterestIsUseful(k: Sock, o: Oracle)
    requires Inv(k) && Valid(k.q) && k.tls && k.s.live && TimeoutMs(k) != 0 && !k.blocking
    ensures WantsWrite(k) <==> Visit(k, TransportHazards.Writable, o).calls != k.calls
  {
    hide LogSafe, Accounted, ShutdownQuiet, PlaintextMatches, RetryRemembered, Flush, Valid, Handshake, PollShutdown;
    var f := TransportHazards.Writable;
    LiveIsValid(k);
    CallsCounted(k, f, o);
    StepOneIsIdle(k, f, o);
    if k.s.ready && k.q.bytes != 0 && QueueReady(k, f) {
      FlushCalls(k, o);
    }
  }

  lemma LiveIsValid(k: Sock)
    requires Inv(k) && k.s.live
    ensures k.valid
  {
    hide Valid, LogSafe, Accounted, RetryRemembered, PlaintextMatches, ShutdownQuiet, SessionShape;
  }

  // ----- begin_graceful_shutdown and the deadlines -------------------------

  /** A graceful shutdown begins exactly if the session is up and sound, nothing has started
      its shutdown before, no direct write waits to be repeated and the timeout is between
      a tenth of a second and a minute; what is queued stays. */
  lemma BeginAnswer(start: Sock, ops: seq<Op>, ms: int, o: Oracle)
    requires Initial(start) && Reach(start, ops, o).tls
    ensures var k := Reach(start, ops, o);
            var r := BeginShutdown(k, ms);
            && (r.ok <==> 100 <= ms <= 60_000 && k.s.live && Seen(k.log, Secures) && !Seen(k.log, StartsShutdown)
                          && !Seen(k.log, Breaks) && !ShutdownBroke(k.log)
                          && (ToRepeat(k.log).Some? ==> ToRepeat(k.log).value.queued))
            && (r.ok ==> r.k == k.(s := r.k.s, log := k.log + [ShutdownBegun(k.now, ms)]))
            && (!r.ok ==> r.k == k)
  {
    hide Reach, Inv, Hist, Seen, Latest, ReadNeedsOutput, WriteNeedsInput, ShakeNeedsOutput, ToRepeat, AlertIs,
         ShutdownEndsAt, ShutdownBroke;
    ReachReads(start, ops, o);
    var k := Reach(start, ops, o);
    if k.s.live {
      SessionByLog(k);
      WaitsByLog(k);
      LiveIsValid(k);
      PeerCloseStarts(k.log);
    } else {
      DeadSessionIsNotReady(k);
    }
  }

  lemma {:induction false} PeerCloseStarts(log: seq<SslEvent>)
    ensures Seen(log, PeerCloses) ==> Seen(log, StartsShutdown)
  {
    if log != [] {
      PeerCloseStarts(log[..|log| - 1]);
    }
  }

  /** When a closing session has to be closed: the time asked for after our own beginning,
      or five seconds after the peer's close_notify, whichever came first. */
  function ClosingDeadline(log: seq<SslEvent>): int
    requires Seen(log, StartsShutdown)
  {
    match Earliest(log, StartsShutdown)
    case Some(ShutdownBegun(at, timeoutMs)) => at + timeoutMs * 1_000_000
    case Some(ReadCall(_, at)) => at + 5_000_000_000
    case _ => 0
  }

  /** A closing session is given up at its deadline and not before: the poller's next
      timeout is due exactly from then on, and the visit that finds it due ends it. */
  lemma ClosingIsTimed(start: Sock, ops: seq<Op>, f: Flags, o: Oracle)
    requires Initial(start)
    requires var k := Reach(start, ops, o);
             k.tls && k.s.live && Seen(k.log, Secures) && Seen(k.log, StartsShutdown)
    ensures var k := Reach(start, ops, o);
            && (TimeoutMs(k) == 0 <==> k.now >= ClosingDeadline(k.log))
            && (k.now >= ClosingDeadline(k.log) ==> PollStep(k, f, o) == (k, -1))
            && (k.now < ClosingDeadline(k.log) ==>
                  0 < TimeoutMs(k) && k.now + (TimeoutMs(k) - 1) * 1_000_000 <= ClosingDeadline(k.log)
                    < k.now + TimeoutMs(k) * 1_000_000)
  {
    hide Reach, Inv, Hist, Seen, Latest, ReadNeedsOutput, WriteNeedsInput, ShakeNeedsOutput, AlertIs, ShutdownBroke;
    ReachReads(start, ops, o);
    var k := Reach(start, ops, o);
    SessionByLog(k);
    WaitsByLog(k);
    LiveIsValid(k);
    EarliestIffSeen(k.log, StartsShutdown);
  }

  /** The deadline of a handshake is set when its session starts and each time the timeout
      is changed while it lasts, to the timeout after that moment, and by nothing else. */
  lemma HandshakeIsTimed(k: Sock, op: Op, o: Oracle)
    requires Inv(k) && Valid(k.q) && k.tls
    ensures var k' := Apply(k, op, o);
            && (k'.s.handshakeDeadline ==
                  if Reconnects(k, op)
                     || (op.OpSetHandshakeTimeout? && 100 <= op.ms <= 60_000 && k.s.live && !k.s.ready)
                  then k.now + k'.s.handshakeTimeout * 1_000_000
                  else k.s.handshakeDeadline)
            && k'.s.handshakeTimeout ==
                 (if op.OpSetHandshakeTimeout? && 100 <= op.ms <= 60_000 then op.ms else k.s.handshakeTimeout)
            && k'.now == (if op.OpWait? then k.now + op.ns else k.now)
  {
    hide Valid, Inv, QueueWrite, SetMaxQueuedBytes, SetOption, Flush, PollStep, PollReceive, BeginShutdown, SendTls,
         Connect, Close;
    match op
    case OpQueueWrite(data) => QueueKeepsClock(k, data);
    case OpSetLimit(limit) => LimitKeepsClock(k, limit);
    case OpConnect(outcome) => ConnectSetsClock(k, outcome, o);
    case OpClose => CloseKeepsClock(k, o);
    case OpDirectWrite(data) => SendKeepsClock(k, data, false, o);
    case OpFlush => WholeFlushKeepsClock(k, o);
    case OpPollStep(f) => StepKeepsClock(k, f, o);
    case OpRead => ReadKeepsClock(k, o);
    case OpBeginShutdown(ms) => BeginKeepsClock(k, ms);
    case _ => OptionSetsClock(k, op);
  }

  lemma QueueKeepsClock(k: Sock, data: seq<byte>)
    ensures SameClock(k, QueueWrite(k, data).k)
  {
    hide Push, Fits;
  }

  lemma LimitKeepsClock(k: Sock, limit: nat)
    ensures SameClock(k, SetMaxQueuedBytes(k, limit).k)
  {
  }

  lemma CloseKeepsClock(k: Sock, o: Oracle)
    ensures SameClock(k, Close(k, o))
  {
    hide Pending, AsDiscarded, NotifiesOnClose;
  }

  lemma ConnectSetsClock(k: Sock, outcome: Outcome, o: Oracle)
    requires k.tls
    ensures var k' := Connect(k, outcome, o);
            && k'.now == k.now && k'.s.handshakeTimeout == k.s.handshakeTimeout
            && k'.s.handshakeDeadline == (if Reconnects(k, OpConnect(outcome))
                                          then k.now + k'.s.handshakeTimeout * 1_000_000 else k.s.handshakeDeadline)
  {
    hide Close;
    CloseKeepsClock(k, o);
    CloseKeepsClock(PrepareConnect(k, o), o);
    CloseKeepsOptions(k, o);
  }

  lemma OptionSetsClock(k: Sock, op: Op)
    ensures var k' := SetOption(k, op);
            var timed := op.OpSetHandshakeTimeout? && 100 <= op.ms <= 60_000;
            && k'.now == (if op.OpWait? then k.now + op.ns else k.now)
            && k'.s.handshakeTimeout == (if timed then op.ms else k.s.handshakeTimeout)
            && k'.s.handshakeDeadline == (if timed && k.s.live && !k.s.ready
                                          then k.now + k'.s.handshakeTimeout * 1_000_000 else k.s.handshakeDeadline)
  {
  }

  predicate SameClock(k: Sock, k': Sock) {
    && k'.now == k.now && k'.tls == k.tls && k'.s.handshakeDeadline == k.s.handshakeDeadline
    && k'.s.handshakeTimeout == k.s.handshakeTimeout
  }

  lemma SendKeepsClock(k: Sock, data: seq<byte>, queued: bool, o: Oracle)
    ensures SameClock(k, SendTls(k, data, queued, o).k)
  {
    hide Digest, RetryMatches;
  }

  lemma ShakeKeepsClock(k: Sock, o: Oracle)
    ensures SameClock(k, Handshake(k, o).0)
  {
  }

  lemma AlertKeepsClock(k: Sock, f: Flags, o: Oracle)
    ensures SameClock(k, PollShutdown(k, f, o).0)
  {
  }

  lemma QuietKeepsClock(k: Sock)
    ensures SameClock(k, k) && SameClock(k, MarkFailed(k))
  {
  }

  lemma StepKeepsClock(k: Sock, f: Flags, o: Oracle)
    ensures SameClock(k, PollStep(k, f, o).0)
  {
    hide Handshake, PollShutdown, MarkFailed, SameClock;
    ShakeKeepsClock(k, o);
    AlertKeepsClock(k, f, o);
    QuietKeepsClock(k);
  }

  lemma ReadKeepsClock(k: Sock, o: Oracle)
    ensures SameClock(k, PollReceive(k, o).k)
  {
  }

  lemma BeginKeepsClock(k: Sock, ms: int)
    ensures SameClock(k, BeginShutdown(k, ms).k)
  {
  }

  lemma FlushStepKeepsClock(k: Sock, left: nat, interrupts: nat, o: Oracle)
    requires Valid(k.q) && k.q.bytes != 0 && left != 0 && interrupts <= 4 && k.tls
    ensures SameClock(k, FlushStep(k, left, interrupts, o).k)
  {
    hide Flat, Coalesced, SendTls, Pending, AsDiscarded, AsWritten, Consume;
    EmptyIffNoBytes(k.q);
    var offer := Offer(k.q, left);
    OfferIsOldest(k.q, |offer|);
    SendKeepsQueue(k, offer, o);
    SendKeepsClock(k, offer, true, o);
  }

  lemma {:induction false} FlushKeepsClock(k: Sock, budget: nat, sent: nat, interrupts: nat, o: Oracle)
    requires Valid(k.q) && sent <= budget && interrupts <= 4 && k.tls
    ensures SameClock(k, FlushFrom(k, budget, sent, interrupts, o).k)
    decreases k.q.bytes, 5 - interrupts
  {
    hide Valid, FlushStep;
    if k.q.bytes != 0 && sent < budget {
      FlushStepKeepsClock(k, budget - sent, interrupts, o);
      match FlushStep(k, budget - sent, interrupts, o)
      case Retry(k') => FlushKeepsClock(k', budget, sent, interrupts + 1, o);
      case Stop(_, _) =>
      case Progress(k', count) => FlushKeepsClock(k', budget, sent + count, 0, o);
    }
  }

  lemma WholeFlushKeepsClock(k: Sock, o: Oracle)
    requires Valid(k.q) && k.tls
    ensures SameClock(k, Flush(k, SEND_BUDGET, o).k)
  {
    hide Valid, FlushFrom;
    if k.valid && !k.blocking {
      FlushKeepsClock(k, SEND_BUDGET, 0, 0, o);
    }
  }

  // ----- options -----------------------------------------------------------

  /** How a socket starts: room for a mebibyte of output and five seconds for a handshake;
      a client verifies its peer, and an accepted TLS socket waits for its client's hello. */
  lemma Defaults(tls: bool, usable: bool, now: int)
    ensures var c := FreshClient(tls, usable, now);
            && c.q.limit == 1_048_576 && Pending(c.q) == [] && c.s.handshakeTimeout == 5000
            && c.s.strict && !c.s.server && !c.s.live && !c.connected && c.valid == usable && c.blocking == !usable
    ensures var a := AcceptedPeer(tls, now);
            && a.q.limit == 1_048_576 && Pending(a.q) == [] && a.valid && a.connected && !a.blocking
            && (tls ==> a.s.live && a.s.server && !a.s.strict && !a.s.ready && !a.s.needWrite
                        && a.s.handshakeDeadline == now + 5_000_000_000)
  {
  }

  /** An option call changes that option and no other; blocking mode needs a descriptor. */
  lemma OptionsAnswer(k: Sock, op: Op, o: Oracle)
    requires Valid(k.q) && (op.OpSetStrict? || op.OpSetBlocking? || op.OpWait?)
    ensures var k' := Apply(k, op, o);
            && k'.s.strict == (if op.OpSetStrict? then op.strict else k.s.strict)
            && k'.blocking == (if op.OpSetBlocking? && k.valid then op.flag else k.blocking)
            && k'.now == (if op.OpWait? then k.now + op.ns else k.now)
  {
    hide Valid;
    var _ := SetOption(k, op);
  }

  // ----- close and connect -------------------------------------------------

  /** Our close_notify is on its way: the last SSL_shutdown that moved has sent it. */
  predicate AlertIsOut(log: seq<SslEvent>) {
    match Latest(log, AlertMoves)
    case None => false
    case Some(e) => e.ShutdownCall? && (e.answer == Done(0) || e.alertSent)
  }

  /** close gives up what is pending, in order, and ends the session.  It makes one last
      SSL_shutdown exactly for a sound session whose peer has not closed and does not have
      our alert yet. */
  lemma CloseAnswer(start: Sock, ops: seq<Op>, o: Oracle)
    requires Initial(start)
    ensures var k := Reach(start, ops, o);
            var k' := Close(k, o);
            && !k'.valid && (k.valid ==> !k'.connected) && !(k'.tls && k'.s.live)
            && Valid(k'.q) && Pending(k'.q) == [] && k'.q.limit == k.q.limit
            && k'.accepted == k.accepted && k'.fates == k.fates + AsDiscarded(Pending(k.q))
            && k'.log == k.log + if k.tls && k.s.live && Seen(k.log, Secures) && !Seen(k.log, Breaks)
                                    && !ShutdownBroke(k.log) && !Seen(k.log, PeerCloses) && !AlertIsOut(k.log)
                                 then [ShutdownCall(false, o(k.calls).ssl, o(k.calls).alertSent)] else []
  {
    hide Reach, Inv, Hist, Seen, Latest, ReadNeedsOutput, WriteNeedsInput, ShakeNeedsOutput, ShutdownEndsAt,
         ShutdownBroke, Pending, AsDiscarded, Valid, EndSession;
    ReachReads(start, ops, o);
    var k := Reach(start, ops, o);
    InvCounts(k);
    CloseKeeps(k, o);
    InvCounts(Close(k, o));
    if k.tls && k.s.live {
      SessionByLog(k);
      WaitsByLog(k);
      LiveIsValid(k);
    }
    assert k.log + [] == k.log;
    ClearKeepsLimit(k.q);
  }

  lemma ClearKeepsLimit(q: Queue)
    ensures Clear(q).limit == q.limit
  {
  }

  /** An accepted TLS peer never connects.  A connection that is established starts from
      nothing: nothing queued, nothing accounted for, no TLS call made, and a TLS client
      that is not ready and speaks first; one that fails after that leaves a closed socket. */
  lemma ConnectAnswer(k: Sock, outcome: Outcome, o: Oracle)
    requires Inv(k)
    ensures var k' := Connect(k, outcome, o);
            if k.tls && k.s.server then k' == k
            else
              && k'.tls == k.tls && k'.q.limit == k.q.limit && Valid(k'.q)
              && (outcome == Established ==>
                    && k'.valid && k'.connected && !k'.blocking && Pending(k'.q) == [] && k'.log == []
                    && k'.accepted == [] && k'.fates == [] && k'.failures == 0
                    && (k.tls ==> k'.s.live && !k'.s.ready && k'.s.needWrite && k'.s.strict == k.s.strict))
              && (outcome == TcpFailed || outcome == SetupFailed ==> !k'.valid && Pending(k'.q) == [])
              && (outcome == Unresolved && !k.tls ==> k' == k)
              && (outcome == Unresolved && k.tls ==> !k'.s.live)
  {
    hide Inv, Close, Pending, Valid;
    PrepareKeeps(k, o);
    CloseKeeps(k, o);
    ConnectKeeps(k, outcome, o);
    var k1 := PrepareConnect(k, o);
    CloseKeeps(k1, o);
    InvCounts(Connect(k, outcome, o));
    CloseKeepsOptions(k, o);
    CloseKeepsOptions(k1, o);
  }

  lemma CloseKeepsOptions(k: Sock, o: Oracle)
    ensures var c := Close(k, o);
            c.q.limit == k.q.limit && c.s.strict == k.s.strict && c.s.server == k.s.server && c.tls == k.tls
  {
    hide Pending, AsDiscarded;
  }
}
