/** What the flags of a TLS session mean.  Each of them is read off the log of the
    session's OpenSSL calls, whatever happened to the socket before. */
module TransportHistory {
  import opened Bytes
  import opened WriteQueue
  import opened Transport
  import opened TransportInvariant
  import opened TransportTheorems
  import opened Wrappers

  // ----- kinds of events ---------------------------------------------------

  /** A handshake that OpenSSL completed, with its certificate verified if that was asked. */
  predicate Secures(e: SslEvent) {
    e.HandshakeCall? && e.answer.Done? && (e.checked ==> e.verified)
  }

  predicate ShakeWaits(e: SslEvent) {
    e.HandshakeCall? && (e.answer.WantRead? || e.answer.WantWrite?)
  }

  /** A read that brought data or has to wait. */
  predicate ReadWaitsOrBrings(e: SslEvent) {
    e.ReadCall? && (e.answer.Done? || e.answer.WantRead? || e.answer.WantWrite?)
  }

  predicate IsWrite(e: SslEvent) {
    e.WriteCall?
  }

  /** A read that met the peer's close_notify. */
  predicate PeerCloses(e: SslEvent) {
    e.ReadCall? && e.answer.ZeroReturn?
  }

  /** What starts our half of the shutdown. */
  predicate StartsShutdown(e: SslEvent) {
    e.ShutdownBegun? || PeerCloses(e)
  }

  /** The poller's SSL_shutdown sent our alert, or has to wait. */
  predicate AlertMoves(e: SslEvent) {
    e.ShutdownCall? && e.byPoller && (e.answer == Done(0) || e.answer.WantRead? || e.answer.WantWrite?)
  }

  /** What makes a session unusable, whenever it happens. */
  predicate Breaks(e: SslEvent) {
    || (e.ReadCall? && e.answer.Fatal?)
    || (e.WriteCall? && !e.w.blocked && e.w.taken == 0)
    || e.TransportError?
  }

  /** An SSL_shutdown of the poller that failed. */
  predicate AlertFails(e: SslEvent) {
    e.ShutdownCall? && e.byPoller && (e.answer.ZeroReturn? || e.answer.Fatal?)
  }

  // ----- reading a log -----------------------------------------------------

  function Latest(log: seq<SslEvent>, kind: SslEvent -> bool): Option<SslEvent> {
    if log == [] then None
    else if kind(log[|log| - 1]) then Some(log[|log| - 1])
    else Latest(log[..|log| - 1], kind)
  }

  function Earliest(log: seq<SslEvent>, kind: SslEvent -> bool): Option<SslEvent> {
    if log == [] then None
    else if kind(log[0]) then Some(log[0])
    else Earliest(log[1..], kind)
  }

  predicate Seen(log: seq<SslEvent>, kind: SslEvent -> bool) {
    Latest(log, kind).Some?
  }

  /** An SSL_shutdown failed before the peer's close_notify was seen. */
  ghost predicate ShutdownBroke(log: seq<SslEvent>) {
    exists i :: 0 <= i < |log| && AlertFails(log[i]) && !Seen(log[..i], PeerCloses)
  }

  /** How the first handshakes of a client or server wait, and how later ones do. */
  predicate ShakeNeedsOutput(log: seq<SslEvent>, server: bool) {
    match Latest(log, ShakeWaits)
    case None => !server
    case Some(e) => e.HandshakeCall? && e.answer.WantWrite?
  }

  predicate ReadNeedsOutput(log: seq<SslEvent>) {
    match Latest(log, ReadWaitsOrBrings)
    case None => false
    case Some(e) => e.ReadCall? && e.answer.WantWrite?
  }

  predicate WriteNeedsInput(log: seq<SslEvent>) {
    match Latest(log, IsWrite)
    case None => false
    case Some(e) => e.WriteCall? && e.w.blocked && e.w.needRead
  }

  /** Our alert is out, and whether the next SSL_shutdown waits for input or output. */
  predicate AlertIs(log: seq<SslEvent>, sent: bool, needRead: bool, needWrite: bool) {
    match Latest(log, AlertMoves)
    case None => !sent && !needRead && !needWrite
    case Some(e) =>
      && e.ShutdownCall?
      && sent == (e.answer == Done(0) || e.alertSent)
      && needRead == !e.answer.WantWrite?
      && needWrite == e.answer.WantWrite?
  }

  /** The time the first of them allows: five seconds if it was the peer. */
  predicate ShutdownEndsAt(log: seq<SslEvent>, deadline: int) {
    match Earliest(log, StartsShutdown)
    case None => true
    case Some(ShutdownBegun(at, timeoutMs)) => deadline == at + timeoutMs * 1_000_000
    case Some(ReadCall(_, at)) => deadline == at + 5_000_000_000
    case Some(_) => false
  }

  /** The flags of a session, read off its log. */
  ghost predicate ReadsLog(s: Session, log: seq<SslEvent>) {
    && s.ready == Seen(log, Secures)
    && s.needWrite == (!s.ready && ShakeNeedsOutput(log, s.server))
    && s.recvNeedWrite == ReadNeedsOutput(log)
    && s.sendNeedRead == WriteNeedsInput(log)
    && s.peerNotified == Seen(log, PeerCloses)
    && s.shutRequested == Seen(log, StartsShutdown)
    && AlertIs(log, s.shutSent, s.shutNeedRead, s.shutNeedWrite)
    && ShutdownEndsAt(log, s.shutDeadline)
    && s.failed == (Seen(log, Breaks) || ShutdownBroke(log))
  }

  /** Handshake calls come first, up to the one that secures the session; everything
      else comes after that one. */
  ghost predicate SecuredFirst(log: seq<SslEvent>) {
    forall j :: 0 <= j < |log| ==> (log[j].HandshakeCall? <==> !Seen(log[..j], Secures))
  }

  ghost predicate Hist(k: Sock) {
    k.tls ==> SecuredFirst(k.log) && (k.s.live ==> ReadsLog(k.s, k.log))
  }

  // ----- one more event ----------------------------------------------------

  lemma LatestSnoc(log: seq<SslEvent>, e: SslEvent, kind: SslEvent -> bool)
    ensures Latest(log + [e], kind) == if kind(e) then Some(e) else Latest(log, kind)
  {
    assert (log + [e])[..|log|] == log;
  }

  lemma {:induction false} EarliestSnoc(log: seq<SslEvent>, e: SslEvent, kind: SslEvent -> bool)
    ensures Earliest(log + [e], kind)
         == if Earliest(log, kind).Some? then Earliest(log, kind) else if kind(e) then Some(e) else None
  {
    if log == [] {
      assert ([] + [e])[1..] == [];
    } else {
      EarliestSnoc(log[1..], e, kind);
      assert (log + [e])[1..] == log[1..] + [e];
    }
  }

  lemma {:induction false} EarliestIffSeen(log: seq<SslEvent>, kind: SslEvent -> bool)
    ensures Earliest(log, kind).Some? <==> Seen(log, kind)
  {
    if log != [] {
      var n := |log| - 1;
      EarliestIffSeen(log[..n], kind);
      EarliestSnoc(log[..n], log[n], kind);
      assert log == log[..n] + [log[n]];
    }
  }

  lemma {:induction false} LatestFound(log: seq<SslEvent>, kind: SslEvent -> bool)
    ensures Seen(log, kind) <==> exists i :: 0 <= i < |log| && kind(log[i])
    ensures Seen(log, kind) ==> Latest(log, kind).value in log && kind(Latest(log, kind).value)
  {
    if log != [] {
      LatestFound(log[..|log| - 1], kind);
    }
  }

  lemma ShutdownBrokeSnoc(log: seq<SslEvent>, e: SslEvent)
    ensures ShutdownBroke(log + [e]) <==> ShutdownBroke(log) || (AlertFails(e) && !Seen(log, PeerCloses))
  {
    hide Seen, AlertFails;
    var log' := log + [e];
    assert log'[|log|] == e && log'[..|log|] == log;
    forall i | 0 <= i < |log|
      ensures log'[i] == log[i] && log'[..i] == log[..i]
    {
    }
  }

  lemma SecuredFirstSnoc(log: seq<SslEvent>, e: SslEvent)
    requires SecuredFirst(log) && (e.HandshakeCall? <==> !Seen(log, Secures))
    ensures SecuredFirst(log + [e])
  {
    hide Seen;
    var log' := log + [e];
    forall j | 0 <= j < |log'|
      ensures log'[j].HandshakeCall? <==> !Seen(log'[..j], Secures)
    {
      if j < |log| {
        assert log'[j] == log[j] && log'[..j] == log[..j];
      } else {
        assert log'[..j] == log;
      }
    }
  }

  /** What one event changes about each of the readings. */
  lemma Snocs(log: seq<SslEvent>, e: SslEvent)
    ensures Seen(log + [e], Secures) == (Secures(e) || Seen(log, Secures))
    ensures Latest(log + [e], ShakeWaits) == if ShakeWaits(e) then Some(e) else Latest(log, ShakeWaits)
    ensures Latest(log + [e], ReadWaitsOrBrings)
         == if ReadWaitsOrBrings(e) then Some(e) else Latest(log, ReadWaitsOrBrings)
    ensures Latest(log + [e], IsWrite) == if IsWrite(e) then Some(e) else Latest(log, IsWrite)
    ensures Seen(log + [e], PeerCloses) == (PeerCloses(e) || Seen(log, PeerCloses))
    ensures Seen(log + [e], StartsShutdown) == (StartsShutdown(e) || Seen(log, StartsShutdown))
    ensures Latest(log + [e], AlertMoves) == if AlertMoves(e) then Some(e) else Latest(log, AlertMoves)
    ensures Seen(log + [e], Breaks) == (Breaks(e) || Seen(log, Breaks))
    ensures ShutdownBroke(log + [e]) == (ShutdownBroke(log) || (AlertFails(e) && !Seen(log, PeerCloses)))
    ensures Earliest(log + [e], StartsShutdown)
         == if Seen(log, StartsShutdown) then Earliest(log, StartsShutdown)
            else if StartsShutdown(e) then Some(e) else None
  {
    hide Latest, Earliest, ShutdownBroke, Secures, ShakeWaits, ReadWaitsOrBrings, IsWrite, PeerCloses, StartsShutdown,
         AlertMoves, Breaks, AlertFails;
    LatestSnoc(log, e, Secures);
    LatestSnoc(log, e, ShakeWaits);
    LatestSnoc(log, e, ReadWaitsOrBrings);
    LatestSnoc(log, e, IsWrite);
    LatestSnoc(log, e, PeerCloses);
    LatestSnoc(log, e, StartsShutdown);
    LatestSnoc(log, e, AlertMoves);
    LatestSnoc(log, e, Breaks);
    ShutdownBrokeSnoc(log, e);
    EarliestSnoc(log, e, StartsShutdown);
    EarliestIffSeen(log, StartsShutdown);
  }

  // ----- each call keeps the reading ---------------------------------------

  lemma HandshakeReads(s: Session, log: seq<SslEvent>, a: Answer)
    requires ReadsLog(s, log) && SessionShape(s) && s.live && !s.ready
    ensures ReadsLog(AfterHandshake(s, a), log + [HandshakeCall(a.ssl, a.verified, Checks(s))])
  {
    hide Latest, Earliest, Seen, ShutdownBroke;
    Snocs(log, HandshakeCall(a.ssl, a.verified, Checks(s)));
  }

  lemma ReadReads(s: Session, log: seq<SslEvent>, a: SslAnswer, now: int)
    requires ReadsLog(s, log) && SessionShape(s) && s.ready
    ensures ReadsLog(AfterRead(s, a, now), log + [ReadCall(a, now)])
  {
    hide Latest, Earliest, Seen, ShutdownBroke;
    Snocs(log, ReadCall(a, now));
  }

  lemma WriteReads(s: Session, log: seq<SslEvent>, w: Write)
    requires ReadsLog(s, log) && SessionShape(s) && s.ready
    ensures ReadsLog(AfterWrite(s, w), log + [WriteCall(w)])
  {
    hide Latest, Earliest, Seen, ShutdownBroke, Digest;
    Snocs(log, WriteCall(w));
  }

  lemma ShutdownReads(s: Session, log: seq<SslEvent>, a: Answer)
    requires ReadsLog(s, log) && SessionShape(s) && s.ready && s.shutRequested
    ensures ReadsLog(AfterShutdown(s, a), log + [ShutdownCall(true, a.ssl, a.alertSent)])
  {
    hide Latest, Earliest, Seen, ShutdownBroke;
    Snocs(log, ShutdownCall(true, a.ssl, a.alertSent));
  }

  lemma BegunReads(s: Session, log: seq<SslEvent>, s': Session, now: int, ms: int)
    requires ReadsLog(s, log) && SessionShape(s) && s.ready && !s.shutRequested
    requires s' == s.(shutRequested := true, shutSent := false, shutNeedWrite := false, shutNeedRead := false,
                      shutDeadline := now + ms * NS_PER_MS)
    ensures ReadsLog(s', log + [ShutdownBegun(now, ms)])
  {
    hide Latest, Earliest, Seen, ShutdownBroke;
    Snocs(log, ShutdownBegun(now, ms));
  }

  lemma ErrorReads(s: Session, log: seq<SslEvent>)
    requires ReadsLog(s, log) && s.ready
    ensures ReadsLog(s.(failed := true), log + [TransportError])
  {
    hide Latest, Earliest, Seen, ShutdownBroke;
    Snocs(log, TransportError);
  }

  // ----- each operation keeps it -------------------------------------------

  /** Neither the session nor its log has changed. */
  predicate SameReading(k: Sock, k': Sock) {
    k'.tls == k.tls && k'.log == k.log && k'.s == k.s
  }

  lemma SameReadingKeeps(k: Sock, k': Sock)
    requires Hist(k) && SameReading(k, k')
    ensures Hist(k')
  {
    hide Latest, Earliest, Seen, ShutdownBroke, SecuredFirst;
  }

  lemma SslWriteHist(k: Sock, plain: seq<byte>, queued: bool, o: Oracle)
    requires Hist(k) && SessionShape(k.s) && k.tls && k.s.live && k.s.ready && plain != []
    ensures Hist(SslWrite(k, plain, queued, o).k)
  {
    hide Latest, Seen, ReadsLog, SecuredFirst, AfterWrite, SessionShape;
    var w := WriteMade(k, plain, queued, o);
    WriteReads(k.s, k.log, w);
    ReadyIsSecured(k);
    SecuredFirstSnoc(k.log, WriteCall(w));
  }

  lemma ReadyIsSecured(k: Sock)
    requires Hist(k) && k.tls && k.s.live
    ensures Seen(k.log, Secures) == k.s.ready
  {
    hide Latest, Earliest, Seen, ShutdownBroke, SecuredFirst;
  }

  lemma SendTlsHist(k: Sock, data: seq<byte>, queued: bool, o: Oracle)
    requires Hist(k) && SessionShape(k.s) && k.tls
    ensures Hist(SendTls(k, data, queued, o).k)
  {
    hide Hist, SessionShape, SslWrite, RetryMatches;
    if SendTls(k, data, queued, o).k != k {
      if k.s.pendingLen != 0 {
        RetryIsNonempty(k.s, data, queued);
        SslWriteHist(k, data[..k.s.pendingLen], queued, o);
      } else {
        SslWriteHist(k, data, queued, o);
      }
    }
  }

  lemma RetryIsNonempty(s: Session, data: seq<byte>, queued: bool)
    requires s.pendingLen != 0 && RetryMatches(s, data, queued)
    ensures s.pendingLen <= |data|
  {
    hide Digest;
  }

  /** The hook called by a flush and a direct write, whatever the transport. */
  lemma SendHist(k: Sock, data: seq<byte>, queued: bool, o: Oracle)
    requires Hist(k) && SessionShape(k.s)
    ensures Hist(if k.tls then SendTls(k, data, queued, o).k else PlainSend(k, data, queued, o).k)
  {
    hide SendTls, ReadsLog, SecuredFirst, SessionShape;
    if k.tls {
      SendTlsHist(k, data, queued, o);
    }
  }

  lemma FlushStepHist(k: Sock, left: nat, interrupts: nat, o: Oracle)
    requires Valid(k.q) && Hist(k) && SessionShape(k.s) && k.q.bytes != 0 && left != 0 && interrupts <= 4
    ensures Hist(FlushStep(k, left, interrupts, o).k)
  {
    hide Flat, Coalesced, SendTls, PlainSend, ReadsLog, SecuredFirst, SessionShape, Pending, AsDiscarded, AsWritten,
         Consume;
    EmptyIffNoBytes(k.q);
    var offer := Offer(k.q, left);
    OfferIsOldest(k.q, |offer|);
    SendHist(k, offer, true, o);
    SendKeepsQueue(k, offer, o);
  }

  lemma {:induction false} FlushHist(k: Sock, budget: nat, sent: nat, interrupts: nat, o: Oracle)
    requires Inv(k) && Hist(k) && sent <= budget <= SEND_BUDGET && interrupts <= 4
    requires sent < budget ==> Enough(k, budget - sent)
    ensures Hist(FlushFrom(k, budget, sent, interrupts, o).k)
    decreases k.q.bytes, 5 - interrupts
  {
    hide LogSafe, Accounted, ShutdownQuiet, PlaintextMatches, RetryRemembered, FlushStep, Advanced, Valid, Hist;
    if k.q.bytes != 0 && sent < budget {
      FlushStepKeeps(k, budget - sent, interrupts, o);
      FlushStepHist(k, budget - sent, interrupts, o);
      match FlushStep(k, budget - sent, interrupts, o)
      case Retry(k') => FlushHist(k', budget, sent, interrupts + 1, o);
      case Stop(_, _) =>
      case Progress(k', count) => FlushHist(k', budget, sent + count, 0, o);
    }
  }

  lemma CloseHist(k: Sock, o: Oracle)
    requires Hist(k)
    ensures Hist(Close(k, o)) && Close(k, o).tls == k.tls && (k.tls ==> !Close(k, o).s.live)
  {
    hide ReadsLog, SecuredFirst, Pending, AsDiscarded, Latest, Seen, EndSession;
    SessionEnds(k.s);
    if NotifiesOnClose(k) {
      ReadyIsSecured(k);
      SecuredFirstSnoc(k.log, ShutdownCall(false, o(k.calls).ssl, o(k.calls).alertSent));
    }
  }

  lemma StartsReading(k: Sock, server: bool)
    ensures Hist(InitSession(k, server))
  {
  }

  lemma ConnectHist(k: Sock, outcome: Outcome, o: Oracle)
    requires Inv(k) && Hist(k)
    ensures Hist(Connect(k, outcome, o))
  {
    hide Hist, Close, InitSession, Inv;
    CloseHist(k, o);
    PrepareKeeps(k, o);
    var k1 := PrepareConnect(k, o);
    BlockingHist(if k.tls && (k.s.live || k.connected) then Close(k, o) else k, k1);
    CloseHist(k1, o);
    PlainHist(Connect(k, outcome, o));
    StartsReading(Close(k1, o).(valid := true, connected := true, blocking := false,
                                log := [], accepted := [], fates := [], failures := 0), false);
  }

  lemma BlockingHist(k: Sock, k': Sock)
    requires Hist(k) && k' == k.(blocking := k'.blocking)
    ensures Hist(k')
  {
    hide ReadsLog, SecuredFirst;
  }

  lemma PlainHist(k: Sock)
    ensures !k.tls ==> Hist(k)
  {
  }

  lemma ShakeHist(k: Sock, o: Oracle)
    requires Hist(k) && SessionShape(k.s) && k.tls && k.s.live && !k.s.ready
    ensures Hist(Handshake(k, o).0)
  {
    hide ReadsLog, SecuredFirst, Seen, AfterHandshake, SessionShape;
    ReadyIsSecured(k);
    HandshakeReads(k.s, k.log, o(k.calls));
    SecuredFirstSnoc(k.log, HandshakeCall(o(k.calls).ssl, o(k.calls).verified, Checks(k.s)));
  }

  lemma ReceiveHist(k: Sock, o: Oracle)
    requires Hist(k) && SessionShape(k.s)
    ensures Hist(PollReceive(k, o).k)
  {
    hide ReadsLog, SecuredFirst, Seen, AfterRead, SessionShape;
    if k.tls && k.s.ready && k.s.live {
      ReadyIsSecured(k);
      ReadReads(k.s, k.log, o(k.calls).ssl, k.now);
      SecuredFirstSnoc(k.log, ReadCall(o(k.calls).ssl, k.now));
    }
  }

  lemma BeginHist(k: Sock, ms: int)
    requires Hist(k) && SessionShape(k.s)
    ensures Hist(BeginShutdown(k, ms).k)
  {
    hide ReadsLog, SecuredFirst, Seen, SessionShape;
    if k.tls && MayBeginShutdown(k, ms) {
      ReadyIsSecured(k);
      BegunReads(k.s, k.log, BeginShutdown(k, ms).k.s, k.now, ms);
      SecuredFirstSnoc(k.log, ShutdownBegun(k.now, ms));
    }
  }

  lemma ErrorHist(k: Sock)
    requires Hist(k) && k.tls && k.s.live && k.s.ready
    ensures Hist(MarkFailed(k))
  {
    hide ReadsLog, SecuredFirst, Seen;
    ReadyIsSecured(k);
    ErrorReads(k.s, k.log);
    SecuredFirstSnoc(k.log, TransportError);
  }

  lemma AlertHist(k: Sock, f: Flags, o: Oracle)
    requires Hist(k) && SessionShape(k.s) && k.tls && k.s.live && k.s.ready && k.s.shutRequested
    ensures Hist(PollShutdown(k, f, o).0)
  {
    hide ReadsLog, SecuredFirst, Seen, AfterShutdown, SessionShape;
    ReadyIsSecured(k);
    ShutdownReads(k.s, k.log, o(k.calls));
    SecuredFirstSnoc(k.log, ShutdownCall(true, o(k.calls).ssl, o(k.calls).alertSent));
  }

  lemma StepHist(k: Sock, f: Flags, o: Oracle)
    requires Hist(k) && SessionShape(k.s)
    ensures Hist(PollStep(k, f, o).0)
  {
    hide Hist, PollShutdown, Handshake, MarkFailed;
    if k.tls && k.s.live {
      if k.s.ready {
        ErrorHist(k);
        if k.s.shutRequested {
          AlertHist(k, f, o);
        }
      } else {
        ShakeHist(k, o);
      }
    }
  }

  lemma QuietHist(k: Sock, op: Op, o: Oracle)
    requires Valid(k.q) && Hist(k)
    requires op.OpQueueWrite? || op.OpSetLimit? || op.OpSetBlocking? || op.OpSetHandshakeTimeout? || op.OpSetStrict?
             || op.OpWait?
    ensures Hist(Apply(k, op, o))
  {
    hide Valid, Hist, SameReading, QueueWrite, SetMaxQueuedBytes, SetOption;
    if op.OpQueueWrite? {
      QueueIsElsewhere(k, op.data);
      SameReadingKeeps(k, QueueWrite(k, op.data).k);
    } else if op.OpSetLimit? {
      LimitIsElsewhere(k, op.limit);
      SameReadingKeeps(k, SetMaxQueuedBytes(k, op.limit).k);
    } else {
      OptionHist(k, op);
    }
  }

  lemma QueueIsElsewhere(k: Sock, data: seq<byte>)
    ensures SameReading(k, QueueWrite(k, data).k)
  {
    hide Push, Fits;
  }

  lemma LimitIsElsewhere(k: Sock, limit: nat)
    ensures SameReading(k, SetMaxQueuedBytes(k, limit).k)
  {
  }

  lemma FlagHist(k: Sock, k': Sock)
    requires Hist(k)
    requires k' == k.(blocking := k'.blocking, now := k'.now,
                      s := k.s.(strict := k'.s.strict, handshakeTimeout := k'.s.handshakeTimeout,
                                handshakeDeadline := k'.s.handshakeDeadline))
    ensures Hist(k')
  {
    hide Latest, Earliest, Seen, ShutdownBroke, SecuredFirst;
  }

  lemma OptionHist(k: Sock, op: Op)
    requires Hist(k)
    ensures Hist(SetOption(k, op))
  {
    hide Hist;
    FlagHist(k, SetOption(k, op));
  }

  lemma WholeFlushHist(k: Sock, o: Oracle)
    requires Inv(k) && Valid(k.q) && Hist(k)
    ensures Hist(Flush(k, SEND_BUDGET, o).k)
  {
    hide Inv, Hist, FlushFrom, Valid;
    if k.valid && !k.blocking {
      NothingToRepeatBeyond(k);
      FlushHist(k, SEND_BUDGET, 0, 0, o);
    }
  }

  lemma ApplyHist(k: Sock, op: Op, o: Oracle)
    requires Inv(k) && Valid(k.q) && Hist(k)
    ensures Hist(Apply(k, op, o))
  {
    hide Inv, Valid, Hist, SessionShape, SendTls, PlainSend, Connect, Close, BeginShutdown, PollReceive, PollStep,
         Flush, QueueWrite, SetMaxQueuedBytes, SetOption;
    assert SessionShape(k.s) by { InvHasShape(k); }
    match op
    case OpDirectWrite(data) => SendHist(k, data, false, o);
    case OpConnect(outcome) => ConnectHist(k, outcome, o);
    case OpClose => CloseHist(k, o);
    case OpBeginShutdown(ms) => BeginHist(k, ms);
    case OpRead => ReceiveHist(k, o);
    case OpPollStep(f) => StepHist(k, f, o);
    case OpFlush => WholeFlushHist(k, o);
    case _ => QuietHist(k, op, o);
  }

  lemma InvHasShape(k: Sock)
    requires Inv(k)
    ensures SessionShape(k.s)
  {
    hide Valid, LogSafe, Accounted, RetryRemembered, PlaintextMatches, ShutdownQuiet;
  }

  lemma InitialHist(k: Sock)
    requires Initial(k)
    ensures Hist(k)
  {
    hide ReadsLog, InitSession;
    if exists tls, now :: k == AcceptedPeer(tls, now) {
      var tls, now :| k == AcceptedPeer(tls, now);
      StartsReading(FreshClient(tls, true, now).(connected := true, s := NoSession.(strict := false)), true);
    }
  }

  lemma {:induction false} RunHist(k: Sock, ops: seq<Op>, o: Oracle)
    requires Inv(k) && Hist(k)
    ensures Hist(Run(k, ops, o))
    decreases |ops|
  {
    hide Inv, Hist, Apply, Valid;
    if ops != [] {
      InvIsValid(k);
      ApplyKeeps(k, ops[0], o);
      ApplyHist(k, ops[0], o);
      RunHist(Apply(k, ops[0], o), ops[1..], o);
    }
  }

  // ----- over every run ----------------------------------------------------

  /** In every reachable state of a live session each flag is what the log says. */
  lemma FlagsReadTheLog(start: Sock, ops: seq<Op>, o: Oracle)
    requires Initial(start)
    ensures var k := Reach(start, ops, o);
            && (k.tls && k.s.live ==> ReadsLog(k.s, k.log))
            && (k.tls ==> SecuredFirst(k.log))
  {
    hide Inv, Run, ReadsLog, SecuredFirst;
    InitialInv(start);
    InitialHist(start);
    RunHist(start, ops, o);
  }

  /** A session counts as ready exactly if OpenSSL completed a handshake in it, verified
      if verification was in force; nothing is read, written or shut down before that
      handshake, and no other follows it. */
  lemma ReadyIsVerified(start: Sock, ops: seq<Op>, o: Oracle)
    requires Initial(start) && Reach(start, ops, o).tls
    ensures var k := Reach(start, ops, o);
            && (k.s.live ==> (k.s.ready <==> exists i :: 0 <= i < |k.log| && Secures(k.log[i])))
            && forall j :: 0 <= j < |k.log| ==>
                 (k.log[j].HandshakeCall? <==> forall i :: 0 <= i < j ==> !Secures(k.log[i]))
  {
    hide Reach, Latest, Secures;
    FlagsReadTheLog(start, ops, o);
    var log := Reach(start, ops, o).log;
    LatestFound(log, Secures);
    forall j | 0 <= j < |log|
      ensures log[j].HandshakeCall? <==> forall i :: 0 <= i < j ==> !Secures(log[i])
    {
      LatestFound(log[..j], Secures);
      assert forall i :: 0 <= i < j ==> log[..j][i] == log[i];
    }
  }
}
