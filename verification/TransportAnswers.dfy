/** What the calls of an event socket answer, and why: each answer is tied to the pending
    bytes, to the log of the calls made so far and to what the next call brings. */
module TransportAnswers {
  import opened Bytes
  import opened WriteQueue
  import opened Transport
  import opened TransportInvariant
  import opened TransportTheorems
  import opened TransportLosses
  import TransportHazards
  import opened TransportHistory
  import opened Wrappers

  // ----- queue_write -------------------------------------------------------

  /** The TLS session is shutting down, on our initiative or the peer's. */
  predicate Closing(k: Sock) {
    k.tls && k.s.live && Seen(k.log, StartsShutdown)
  }

  lemma ReachReads(start: Sock, ops: seq<Op>, o: Oracle)
    requires Initial(start)
    ensures Inv(Reach(start, ops, o)) && Hist(Reach(start, ops, o))
  {
    hide Inv, Hist, Run;
    InitialInv(start);
    InitialHist(start);
    RunKeeps(start, ops, o);
    RunHist(start, ops, o);
  }

  lemma ClosingIsRequested(k: Sock)
    requires Inv(k) && Hist(k)
    ensures Closing(k) <==> k.tls && k.s.shutRequested
  {
    hide Valid, LogSafe, Accounted, RetryRemembered, PlaintextMatches, ShutdownQuiet, Latest, Earliest, Seen,
         SecuredFirst;
  }

  /** A write is accepted exactly if the socket can take writes and the data fits beside
      what is pending; then all of it is appended, and otherwise nothing changes. */
  lemma QueueWriteAnswer(start: Sock, ops: seq<Op>, data: seq<byte>, o: Oracle)
    requires Initial(start)
    ensures var k := Reach(start, ops, o);
            var r := QueueWrite(k, data);
            && (r.ok <==> k.valid && k.connected && !k.blocking && !Closing(k) &&
                          |Pending(k.q)| + |data| <= k.q.limit)
            && (r.ok ==> Pending(r.k.q) == Pending(k.q) + data && r.k.accepted == k.accepted + data)
            && (!r.ok ==> r.k == k)
            && r.k == k.(q := r.k.q, accepted := r.k.accepted) && r.k.q.limit == k.q.limit
  {
    hide Reach, Inv, Hist, Pending, Closing, Push;
    ReachReads(start, ops, o);
    var k := Reach(start, ops, o);
    InvCounts(k);
    ClosingIsRequested(k);
    PushKeepsLimit(k.q, data);
    if data != [] && Fits(k.q, data) {
      PushAppends(k.q, data);
    } else if data == [] {
      assert Pending(k.q) + data == Pending(k.q) && k.accepted + data == k.accepted;
    }
  }

  lemma InvCounts(k: Sock)
    requires Inv(k)
    ensures Valid(k.q) && k.q.bytes == |Pending(k.q)| <= k.q.limit
  {
    hide LogSafe, Accounted, RetryRemembered, PlaintextMatches, ShutdownQuiet;
  }

  lemma PushKeepsLimit(q: Queue, data: seq<byte>)
    ensures Push(q, data).limit == q.limit
  {
  }

  /** The limit changes exactly if what is pending fits the new one. */
  lemma SetLimitAnswer(start: Sock, ops: seq<Op>, limit: nat, o: Oracle)
    requires Initial(start)
    ensures var k := Reach(start, ops, o);
            var r := SetMaxQueuedBytes(k, limit);
            && (r.ok <==> |Pending(k.q)| <= limit)
            && r.k == k.(q := k.q.(limit := if |Pending(k.q)| <= limit then limit else k.q.limit))
  {
    hide Reach, Inv, Pending;
    ReachInv(start, ops, o);
    InvCounts(Reach(start, ops, o));
  }

  // ----- the queue over the writes that were accepted ----------------------

  /** The last connect of the run replaced the connection. */
  predicate Reconnects(k: Sock, op: Op) {
    op == OpConnect(Established) && !(k.tls && k.s.server)
  }

  /** The data of all writes answered with true since the socket was connected. */
  ghost function Promised(start: Sock, ops: seq<Op>, o: Oracle): seq<byte>
    requires Initial(start)
    decreases |ops|
  {
    if ops == [] then []
    else
      var before := ops[..|ops| - 1];
      var k := Reach(start, before, o);
      match ops[|ops| - 1]
      case OpQueueWrite(data) => Promised(start, before, o) + (if QueueWrite(k, data).ok then data else [])
      case op => if Reconnects(k, op) then [] else Promised(start, before, o)
  }

  lemma AcceptedByWritesOnly(k: Sock, op: Op, o: Oracle)
    requires Inv(k) && Valid(k.q)
    ensures Apply(k, op, o).accepted
         == if op.OpQueueWrite? then k.accepted + (if QueueWrite(k, op.data).ok then op.data else [])
            else if Reconnects(k, op) then [] else k.accepted
  {
    hide Valid, Inv, QueueWrite, SetMaxQueuedBytes, SetOption, Flush, PollStep, PollReceive, BeginShutdown, DirectWrite,
         Connect, Close;
    match op
    case OpQueueWrite(data) => WriteAddsItsData(k, data);
    case OpConnect(outcome) => ConnectForgets(k, outcome, o);
    case OpClose => CloseKeepsAccount(k, o);
    case OpSetLimit(limit) => LimitKeepsAccount(k, limit);
    case OpDirectWrite(data) => DirectKeepsAccount(k, data, o);
    case OpFlush => FlushKeepsAccepted(k, o);
    case OpPollStep(f) => StepKeepsAccount(k, f, o);
    case OpRead => ReadKeepsAccount(k, o);
    case OpBeginShutdown(ms) => BeginKeepsAccount(k, ms);
    case _ => OptionKeepsAccount(k, op);
  }

  lemma WriteAddsItsData(k: Sock, data: seq<byte>)
    ensures var r := QueueWrite(k, data); r.k.accepted == k.accepted + if r.ok then data else []
  {
    hide Push, Fits;
  }

  lemma CloseKeepsAccount(k: Sock, o: Oracle)
    ensures Close(k, o).accepted == k.accepted
  {
    hide Pending, AsDiscarded, NotifiesOnClose;
  }

  lemma ConnectForgets(k: Sock, outcome: Outcome, o: Oracle)
    ensures Connect(k, outcome, o).accepted == if Reconnects(k, OpConnect(outcome)) then [] else k.accepted
  {
    hide Close;
    CloseKeepsAccount(k, o);
    CloseKeepsAccount(PrepareConnect(k, o), o);
    CloseKeepsServer(k, o);
  }

  lemma CloseKeepsServer(k: Sock, o: Oracle)
    ensures Close(k, o).tls == k.tls && Close(k, o).s.server == k.s.server
  {
    hide Pending, AsDiscarded, NotifiesOnClose;
  }

  lemma LimitKeepsAccount(k: Sock, limit: nat)
    ensures SetMaxQueuedBytes(k, limit).k.accepted == k.accepted
  {
  }

  lemma OptionKeepsAccount(k: Sock, op: Op)
    ensures SetOption(k, op).accepted == k.accepted
  {
  }

  lemma DirectKeepsAccount(k: Sock, data: seq<byte>, o: Oracle)
    ensures DirectWrite(k, data, o).k.accepted == k.accepted
  {
    hide Digest, AfterWrite;
  }

  lemma StepKeepsAccount(k: Sock, f: Flags, o: Oracle)
    ensures PollStep(k, f, o).0.accepted == k.accepted
  {
  }

  lemma ReadKeepsAccount(k: Sock, o: Oracle)
    ensures PollReceive(k, o).k.accepted == k.accepted
  {
  }

  lemma BeginKeepsAccount(k: Sock, ms: int)
    ensures BeginShutdown(k, ms).k.accepted == k.accepted
  {
  }

  lemma FlushKeepsAccepted(k: Sock, o: Oracle)
    requires Inv(k) && Valid(k.q)
    ensures Flush(k, SEND_BUDGET, o).k.accepted == k.accepted
  {
    hide Inv, FlushFrom, WrittenOctets, Pending, Valid;
    if k.valid && !k.blocking {
      NothingToRepeatBeyond(k);
      FlushFromKeeps(k, SEND_BUDGET, 0, 0, o);
      InvIsValid(FlushFrom(k, SEND_BUDGET, 0, 0, o).k);
    }
  }

  lemma {:induction false} PromisedIsAccepted(start: Sock, ops: seq<Op>, o: Oracle)
    requires Initial(start)
    ensures Reach(start, ops, o).accepted == Promised(start, ops, o)
    decreases |ops|
  {
    hide Inv, Apply, Valid, QueueWrite, Initial, Reconnects;
    InitialInv(start);
    if ops == [] {
      StartsWithNothing(start);
    } else {
      var before := ops[..|ops| - 1];
      PromisedIsAccepted(start, before, o);
      RunSnoc(start, ops, o);
      ReachInv(start, before, o);
      AcceptedByWritesOnly(Reach(start, before, o), ops[|ops| - 1], o);
    }
  }

  lemma StartsWithNothing(k: Sock)
    requires Initial(k)
    ensures k.accepted == []
  {
  }

  /** The queue as its callers see it: the concatenation of all writes that were answered
      with true is what was written, what was given up and what is pending, in this order
      of octets; while no flush fails, an open socket has written or still holds all of it. */
  lemma PromisesAreKept(start: Sock, ops: seq<Op>, o: Oracle)
    requires Initial(start)
    ensures var k := Reach(start, ops, o);
            && Promised(start, ops, o) == Octets(k.fates) + Pending(k.q)
            && (k.valid && k.failures == 0 ==> Promised(start, ops, o) == WrittenOctets(k.fates) + Pending(k.q))
            && WrittenOctets(k.fates) == (if k.tls then QueuedPlaintext(Writes(k.log)) else SystemTook(k.log))
  {
    hide Reach, Promised, Writes, QueuedPlaintext, WrittenOctets, Octets, Pending, SystemTook;
    PromisedIsAccepted(start, ops, o);
    QueueIsFifo(start, ops, o);
  }

  // ----- write -------------------------------------------------------------

  /** The SSL_write that has to be repeated: the last one, if it blocked. */
  function ToRepeat(log: seq<SslEvent>): Option<Write> {
    var ws := Writes(log);
    if ws != [] && ws[|ws| - 1].blocked then Some(ws[|ws| - 1]) else None
  }

  /** OpenSSL may be shown data now: the session is up and not closing, and data either
      repeats the direct write that blocked or finds nothing queued before it. */
  predicate MayWriteNow(k: Sock, data: seq<byte>) {
    && k.valid && data != [] && k.s.live && Seen(k.log, Secures) && !Closing(k)
    && match ToRepeat(k.log)
       case None => Pending(k.q) == []
       case Some(w) => !w.queued && |data| == |w.data| && Digest(data) == Digest(w.data)
  }

  /** Held back, to be tried again later: queued data goes first. */
  predicate BehindQueue(k: Sock, data: seq<byte>) {
    && k.valid && data != [] && k.s.live && Seen(k.log, Secures) && !Closing(k)
    && match ToRepeat(k.log)
       case None => Pending(k.q) != []
       case Some(w) => w.queued
  }

  /** What the session of a reachable socket remembers, in terms of its log. */
  lemma SessionByLog(k: Sock)
    requires Inv(k) && Hist(k) && k.tls && k.s.live
    ensures k.s.ready <==> Seen(k.log, Secures)
    ensures k.s.shutRequested <==> Seen(k.log, StartsShutdown)
    ensures k.s.pendingLen == 0 <==> ToRepeat(k.log).None?
    ensures k.s.pendingLen != 0 ==>
              var w := ToRepeat(k.log).value;
              w.queued == k.s.pendingQueued && |w.data| == k.s.pendingLen && Digest(w.data) == k.s.pendingHash
    ensures k.s.ready ==> k.valid
  {
    hide Valid, LogSafe, Accounted, PlaintextMatches, ShutdownQuiet, Latest, Earliest, Seen, SecuredFirst, Writes,
         Digest, ShutdownBroke;
  }

  lemma DeadSessionIsNotReady(k: Sock)
    requires Inv(k) && !k.s.live
    ensures !k.s.ready
  {
    hide Valid, LogSafe, Accounted, RetryRemembered, PlaintextMatches, ShutdownQuiet;
  }

  lemma WholeRetry(data: seq<byte>)
    ensures data[..|data|] == data
  {
  }

  /** A direct write on a TLS socket reaches OpenSSL exactly if it may, with all of its
      data, and answers how much OpenSSL took; otherwise nothing happens, and the caller
      is told to try again exactly if only the queue stands before the data. */
  lemma DirectWriteAnswer(start: Sock, ops: seq<Op>, data: seq<byte>, o: Oracle)
    requires Initial(start) && Reach(start, ops, o).tls
    ensures var k := Reach(start, ops, o);
            var r := DirectWrite(k, data, o);
            if MayWriteNow(k, data) then
              var w := WriteMade(k, data, false, o);
              && r.k.log == k.log + [WriteCall(w)]
              && r.count == (if w.taken > 0 then w.taken else -1)
              && (r.errno == WouldBlock <==> w.blocked) && (r.errno == NoError <==> w.taken > 0)
            else
              && r.k == k && r.count == -1
              && r.errno == (if BehindQueue(k, data) then WouldBlock else Broken)
  {
    hide Reach, Inv, Hist, Pending, Closing, Seen, ToRepeat, Digest, Writes, AfterWrite, Valid, Latest;
    ReachReads(start, ops, o);
    var k := Reach(start, ops, o);
    InvCounts(k);
    ClosingIsRequested(k);
    if k.s.live {
      SessionByLog(k);
    } else {
      DeadSessionIsNotReady(k);
    }
    WholeRetry(data);
  }

  /** OpenSSL takes as many octets as it answers, between one and all it was shown; the
      write has to be repeated exactly if it answered with one of the two waits. */
  lemma WriteTells(k: Sock, data: seq<byte>, queued: bool, o: Oracle)
    requires data != []
    ensures var w := WriteMade(k, data, queued, o);
            var answer := o(k.calls).ssl;
            && w.data == data && w.queued == queued && w.outstanding == k.q.bytes
            && (w.taken > 0 <==> answer.Done?) && w.taken <= |data|
            && (answer.Done? && 1 <= answer.count <= |data| ==> w.taken == answer.count)
            && (w.blocked <==> answer.WantRead? || answer.WantWrite?) && (w.needRead <==> answer.WantRead?)
  {
  }

  /** A direct write that blocked cannot be replaced by another text of its length that
      differs in a single octet: no OpenSSL call is made and the write fails for good. */
  lemma ChangedRetryIsRefused(start: Sock, ops: seq<Op>, data: seq<byte>, i: nat, o: Oracle)
    requires Initial(start)
    requires var k := Reach(start, ops, o);
             k.tls && k.s.live && ToRepeat(k.log).Some? && !ToRepeat(k.log).value.queued
    requires var blocked := ToRepeat(Reach(start, ops, o).log).value.data;
             && |data| == |blocked| && i < |data| && data[i] != blocked[i]
             && forall j :: 0 <= j < |data| && j != i ==> data[j] == blocked[j]
    ensures var k := Reach(start, ops, o);
            DirectWrite(k, data, o) == Sent(k, -1, Broken)
  {
    hide Reach, Digest, Pending, Closing, Seen, ToRepeat;
    var k := Reach(start, ops, o);
    OneOctetTells(data, ToRepeat(k.log).value.data, i);
    DirectWriteAnswer(start, ops, data, o);
  }

  /** A direct write on a plain socket is one send(2) of all its data. */
  lemma PlainWriteAnswer(k: Sock, data: seq<byte>, o: Oracle)
    requires !k.tls
    ensures var r := DirectWrite(k, data, o);
            var a := o(k.calls);
            if k.valid && data != [] then
              && r.k == k.(calls := k.calls + 1, log := k.log + [SendCall(data, false, a.sent, a.errno)])
              && (a.sent >= 0 ==> r.count == a.sent && r.errno == NoError)
              && (a.sent < 0 ==> r.count == -1 && r.errno == a.errno)
            else r == Sent(k, -1, Broken)
  {
  }

  // ----- why a flush stops -------------------------------------------------

  predicate Interrupts(e: SslEvent) {
    e.SendCall? && e.sent < 0 && e.errno == Interrupted
  }

  /** How many calls at the end of the log, after the first base of them, were interrupted. */
  function TailRun(log: seq<SslEvent>, base: nat): nat {
    if |log| <= base || !Interrupts(log[|log| - 1]) then 0 else 1 + TailRun(log[..|log| - 1], base)
  }

  lemma TailRunSnoc(log: seq<SslEvent>, e: SslEvent, base: nat)
    requires base <= |log|
    ensures TailRun(log + [e], base) == if Interrupts(e) then 1 + TailRun(log, base) else 0
  {
    assert (log + [e])[..|log|] == log;
  }

  /** The last call told the flush to wait: the write blocked, nothing was taken, the
      system had no room, or it was interrupted for the fifth time in a row. */
  predicate SaysWait(log: seq<SslEvent>, base: nat) {
    |log| > base &&
    match log[|log| - 1]
    case WriteCall(w) => w.queued && w.blocked
    case SendCall(_, queued, sent, errno) =>
      queued && (sent == 0 || (sent < 0 && errno == WouldBlock) || TailRun(log, base) == 5)
    case _ => false
  }

  /** The last call failed for good, or claims more than it was shown. */
  predicate SaysFailed(log: seq<SslEvent>, base: nat) {
    |log| > base &&
    match log[|log| - 1]
    case WriteCall(w) => w.queued && !w.blocked && w.taken == 0
    case SendCall(data, queued, sent, errno) =>
      queued && (sent > |data| || (sent < 0 && errno != WouldBlock && errno != Interrupted))
    case _ => false
  }

  /** The calls of log after the first base: none comes after five interrupted ones. */
  ghost predicate GivesUpAtFive(log: seq<SslEvent>, base: nat) {
    forall j :: base <= j < |log| ==> TailRun(log[..j], base) < 5
  }

  lemma GivesUpSnoc(log: seq<SslEvent>, e: SslEvent, base: nat)
    requires base <= |log| && GivesUpAtFive(log, base) && TailRun(log, base) < 5
    ensures GivesUpAtFive(log + [e], base)
  {
    hide TailRun;
    var log' := log + [e];
    forall j | base <= j < |log'|
      ensures TailRun(log'[..j], base) < 5
    {
      assert log'[..j] == log[..j];
      assert log[..|log|] == log;
    }
  }

  /** One offer makes one call, with a prefix of the pending bytes, unless a direct write
      waits to be repeated or the handshake is not complete. */
  lemma OfferTells(k: Sock, data: seq<byte>, o: Oracle)
    requires Inv(k) && k.q.bytes != 0 && data != [] && FrontIs(k.q, data) && |data| <= SEND_BUDGET
    requires Enough(k, |data|) && !(k.tls && (!k.s.ready || (k.s.pendingLen != 0 && !k.s.pendingQueued)))
    ensures var r := PollSendQueued(k, data, o);
            && |r.k.log| == |k.log| + 1 && r.k.log[..|k.log|] == k.log
            && var e := r.k.log[|k.log|];
            && if k.tls then
                 && e.WriteCall? && e.w.queued && e.w.data <= data
                 && r.count == (if e.w.taken > 0 then e.w.taken else -1)
                 && (r.errno == WouldBlock <==> e.w.blocked)
                 && (e.w.blocked ==> e.w.taken == 0) && e.w.taken <= |e.w.data| && r.errno != Interrupted
               else
                 && e.SendCall? && e.queued && e.data == data
                 && r.count == (if e.sent < 0 then -1 else e.sent)
                 && (e.sent < 0 ==> r.errno == e.errno)
  {
    hide Valid, LogSafe, Accounted, ShutdownQuiet, PlaintextMatches, Digest, Writes, AfterWrite, PeerCloseSeen,
         RetryMatches, RetryRemembered;
    if k.tls && k.s.pendingLen != 0 {
      QueuedRetryMatches(k, data);
    }
  }

  lemma StepTells(k: Sock, left: nat, interrupts: nat, o: Oracle, base: nat)
    requires Inv(k) && k.q.bytes != 0 && 0 < left <= SEND_BUDGET && interrupts <= 4 && Enough(k, left)
    requires !(k.tls && (!k.s.ready || (k.s.pendingLen != 0 && !k.s.pendingQueued)))
    requires base <= |k.log| && (if k.tls then interrupts == 0 else TailRun(k.log, base) == interrupts)
    requires k.tls || GivesUpAtFive(k.log, base)
    ensures var step := FlushStep(k, left, interrupts, o);
            && |step.k.log| == |k.log| + 1 && step.k.tls == k.tls
            && (k.tls || GivesUpAtFive(step.k.log, base))
            && (step.Retry? ==> !k.tls && TailRun(step.k.log, base) == interrupts + 1)
            && (step.Stop? && step.failed ==> SaysFailed(step.k.log, base))
            && (step.Stop? && !step.failed ==> SaysWait(step.k.log, base))
            && (step.Progress? ==> k.tls || TailRun(step.k.log, base) == 0)
  {
    hide LogSafe, Accounted, ShutdownQuiet, PlaintextMatches, RetryRemembered, Flat, Coalesced, PollSendQueued, Shape,
         Drop, TailRun, GivesUpAtFive, Took;
    EmptyIffNoBytes(k.q);
    OfferIsFront(k, left);
    var offer := Offer(k.q, left);
    OfferIsOldest(k.q, |offer|);
    OfferTells(k, offer, o);
    SendKeepsQueue(k, offer, o);
    var r := PollSendQueued(k, offer, o);
    var e := r.k.log[|k.log|];
    assert r.k.log == k.log + [e];
    DropOnlyQueue(r.k);
    if 0 < r.count <= |offer| {
      TookOnlyQueue(r.k, r.count);
    }
    TailRunSnoc(k.log, e, base);
    if !k.tls {
      GivesUpSnoc(k.log, e, base);
    }
  }

  /** A flush that ends before the queue or its budget does has been told to wait or has
      failed, by the last call it made. */
  lemma {:induction false} FlushFromTells(k: Sock, budget: nat, sent: nat, interrupts: nat, o: Oracle, base: nat)
    requires Inv(k) && sent <= budget <= SEND_BUDGET && interrupts <= 4
    requires sent < budget ==> Enough(k, budget - sent)
    requires !(k.tls && k.q.bytes != 0 && (!k.s.ready || (k.s.pendingLen != 0 && !k.s.pendingQueued)))
    requires base <= |k.log| && (if k.tls then interrupts == 0 else TailRun(k.log, base) == interrupts)
    requires k.tls || GivesUpAtFive(k.log, base)
    ensures var f := FlushFrom(k, budget, sent, interrupts, o);
            && (k.tls || GivesUpAtFive(f.k.log, base))
            && (f.failed ==> SaysFailed(f.k.log, base))
            && (!f.failed ==> f.k.q.bytes == 0 || f.sent == budget || SaysWait(f.k.log, base))
    decreases k.q.bytes, 5 - interrupts
  {
    hide LogSafe, Accounted, ShutdownQuiet, PlaintextMatches, RetryRemembered, Shape, FlushStep, Advanced, Valid,
         TailRun, SaysWait, SaysFailed, GivesUpAtFive;
    if k.q.bytes != 0 && sent < budget {
      FlushStepKeeps(k, budget - sent, interrupts, o);
      StepTells(k, budget - sent, interrupts, o, base);
      TransportHazards.StepKeepsStanding(k, budget - sent, interrupts, o);
      match FlushStep(k, budget - sent, interrupts, o)
      case Retry(k') => FlushFromTells(k', budget, sent, interrupts + 1, o, base);
      case Stop(_, _) =>
      case Progress(k', count) => FlushFromTells(k', budget, sent + count, 0, o, base);
    }
  }

  /** Queued bytes go out as far as the socket takes them: a flush of an open socket, with
      a complete handshake if it is a TLS one and no direct write to repeat, goes on until
      the queue is empty, the budget of 65536 octets is used up, or its last call says that
      it has to wait or has failed; it fails only in the last case.  It gives up only
      at the fifth interruption in a row. */
  lemma FlushGoesOn(start: Sock, ops: seq<Op>, o: Oracle)
    requires Initial(start)
    requires var k := Reach(start, ops, o);
             k.valid && !k.blocking && (k.tls && Pending(k.q) != [] ==>
               k.s.live && Seen(k.log, Secures) && (ToRepeat(k.log).Some? ==> ToRepeat(k.log).value.queued))
    ensures var k := Reach(start, ops, o);
            && Valid(k.q)
            && var f := Flush(k, SEND_BUDGET, o);
               && Valid(f.k.q)
               && (f.failed ==> SaysFailed(f.k.log, |k.log|))
               && (!f.failed ==> Pending(f.k.q) == [] || f.bytes == 65536 || SaysWait(f.k.log, |k.log|))
               && (!k.tls ==> GivesUpAtFive(f.k.log, |k.log|))
  {
    hide Reach, Inv, Hist, Pending, Seen, ToRepeat, Writes, Valid, Latest, FlushFrom, SaysWait, SaysFailed;
    ReachReads(start, ops, o);
    var k := Reach(start, ops, o);
    InvCounts(k);
    NothingToRepeatBeyond(k);
    if k.tls && k.s.live {
      SessionByLog(k);
    }
    FlushKeeps(k, o);
    InvCounts(Flush(k, SEND_BUDGET, o).k);
    FlushFromTells(k, SEND_BUDGET, 0, 0, o, |k.log|);
  }
}
