/** Why an accepted byte may be given up while the socket stays open: each failed flush
    of a run has a fatal SSL_write, or a handshake that was not complete, behind it. */
module TransportLosses {
  import opened Bytes
  import opened WriteQueue
  import opened Transport
  import opened TransportInvariant
  import opened TransportTheorems

  // ----- counting failures -------------------------------------------------

  lemma StepCounts(k: Sock, left: nat, interrupts: nat, o: Oracle)
    requires Valid(k.q) && k.q.bytes != 0 && left != 0 && interrupts <= 4
    ensures var step := FlushStep(k, left, interrupts, o);
            step.k.failures == k.failures + if step.Stop? && step.failed then 1 else 0
  {
    hide Flat, Coalesced, PollSendQueued, Pending, AsDiscarded, AsWritten, Consume;
    EmptyIffNoBytes(k.q);
    var offer := Offer(k.q, left);
    OfferIsOldest(k.q, |offer|);
    SendKeepsQueue(k, offer, o);
  }

  lemma {:induction false} FlushFromCounts(k: Sock, budget: nat, sent: nat, interrupts: nat, o: Oracle)
    requires Valid(k.q) && sent <= budget && interrupts <= 4
    ensures var f := FlushFrom(k, budget, sent, interrupts, o);
            f.k.failures == k.failures + if f.failed then 1 else 0
    decreases k.q.bytes, 5 - interrupts
  {
    hide Valid, FlushStep;
    if k.q.bytes != 0 && sent < budget {
      StepCounts(k, budget - sent, interrupts, o);
      match FlushStep(k, budget - sent, interrupts, o)
      case Retry(k') => FlushFromCounts(k', budget, sent, interrupts + 1, o);
      case Stop(_, _) =>
      case Progress(k', count) => FlushFromCounts(k', budget, sent + count, 0, o);
    }
  }

  /** Nothing but a failed flush adds to the failures. */
  lemma OnlyFlushFails(k: Sock, op: Op, o: Oracle)
    requires Valid(k.q)
    ensures Apply(k, op, o).failures > 0 ==>
              k.failures > 0 || (op.OpFlush? && Flush(k, SEND_BUDGET, o).failed)
  {
    hide Valid, FlushFrom, Pending, AsDiscarded, Digest, DirectWrite, PollStep, Connect, Push, Fits;
    match op
    case OpQueueWrite(data) =>
    case OpDirectWrite(data) => DirectKeepsFailures(k, data, o);
    case OpSetLimit(limit) =>
    case OpConnect(outcome) => ConnectKeepsFailures(k, outcome, o);
    case OpClose =>
    case OpBeginShutdown(ms) =>
    case OpRead =>
    case OpPollStep(f) => StepKeepsFailures(k, f, o);
    case OpFlush =>
      if k.valid && !k.blocking {
        FlushFromCounts(k, SEND_BUDGET, 0, 0, o);
      }
    case OpSetBlocking(_) =>
    case OpSetHandshakeTimeout(_) =>
    case OpSetStrict(_) =>
    case OpWait(_) =>
  }

  lemma ConnectKeepsFailures(k: Sock, outcome: Outcome, o: Oracle)
    ensures Connect(k, outcome, o).failures > 0 ==> k.failures > 0
  {
    hide Close;
    CloseKeepsFailures(k, o);
    CloseKeepsFailures(PrepareConnect(k, o), o);
  }

  lemma CloseKeepsFailures(k: Sock, o: Oracle)
    ensures Close(k, o).failures == k.failures
  {
    hide Pending, AsDiscarded, NotifiesOnClose;
  }

  lemma DirectKeepsFailures(k: Sock, data: seq<byte>, o: Oracle)
    ensures DirectWrite(k, data, o).k.failures == k.failures
  {
    hide Digest, AfterWrite;
  }

  lemma StepKeepsFailures(k: Sock, f: Flags, o: Oracle)
    ensures PollStep(k, f, o).0.failures == k.failures
  {
  }

  // ----- runs, last operation first ----------------------------------------

  lemma {:induction false} RunSnoc(k: Sock, ops: seq<Op>, o: Oracle)
    requires Inv(k) && ops != []
    ensures var before := Run(k, ops[..|ops| - 1], o);
            Valid(before.q) && Run(k, ops, o) == Apply(before, ops[|ops| - 1], o)
    decreases |ops|
  {
    hide Inv, Apply, Valid;
    InvIsValid(k);
    ApplyKeeps(k, ops[0], o);
    var k1 := Apply(k, ops[0], o);
    if |ops| == 1 {
      assert ops[..0] == [] && ops[1..] == [];
      assert Run(k, ops, o) == Run(k1, [], o);
    } else {
      RunSnoc(k1, ops[1..], o);
      assert ops[..|ops| - 1][1..] == ops[1..][..|ops| - 2];
    }
  }

  // ----- what lies behind a failure ----------------------------------------

  /** Operation n is a flush that failed, and not before the socket was connected for
      the last time.  With a complete handshake a fatal SSL_write ended it. */
  ghost predicate FailedAt(start: Sock, ops: seq<Op>, o: Oracle, n: nat)
    requires Initial(start)
  {
    && n < |ops| && ops[n].OpFlush?
    && (forall m :: n < m <= |ops| ==> Reach(start, ops[..m], o).failures > 0)
    && var k := Reach(start, ops[..n], o);
       && Valid(k.q)
       && Flush(k, SEND_BUDGET, o).failed
       && (k.tls && k.s.ready ==> FatalLast(Flush(k, SEND_BUDGET, o).k.log))
  }

  lemma FlushFailureIsFatal(k: Sock, o: Oracle)
    requires Inv(k) && Flush(k, SEND_BUDGET, o).failed && k.tls && k.s.ready
    ensures FatalLast(Flush(k, SEND_BUDGET, o).k.log)
  {
    hide LogSafe, Accounted, ShutdownQuiet, PlaintextMatches, Flat, Coalesced, FlushFrom, FatalLast;
    NothingToRepeatBeyond(k);
    FlushFailsLoudly(k, SEND_BUDGET, 0, 0, o);
  }

  /** A failure on record has its cause in the run. */
  lemma {:induction false} FailureHasCause(start: Sock, ops: seq<Op>, o: Oracle)
    requires Initial(start) && start.failures == 0 && Reach(start, ops, o).failures > 0
    ensures exists n :: FailedAt(start, ops, o, n)
    decreases |ops|
  {
    hide Inv, Apply, Valid, Flush, FatalLast, Initial;
    InitialInv(start);
    if ops != [] {
      var last := |ops| - 1;
      var before := ops[..last];
      var k := Reach(start, before, o);
      RunSnoc(start, ops, o);
      ReachInv(start, before, o);
      OnlyFlushFails(k, ops[last], o);
      assert ops[..|ops|] == ops;
      if k.failures > 0 {
        FailureHasCause(start, before, o);
        var n :| FailedAt(start, before, o, n);
        FailedEarlier(start, ops, o, n);
      } else {
        if k.tls && k.s.ready {
          FlushFailureIsFatal(k, o);
        }
        assert FailedAt(start, ops, o, last);
      }
    }
  }

  lemma FailedEarlier(start: Sock, ops: seq<Op>, o: Oracle, n: nat)
    requires Initial(start) && ops != [] && FailedAt(start, ops[..|ops| - 1], o, n) && Reach(start, ops, o).failures > 0
    ensures FailedAt(start, ops, o, n)
  {
    hide Reach, Valid, Flush, FatalLast, Initial;
    var before := ops[..|ops| - 1];
    assert before[..n] == ops[..n];
    forall m | n < m <= |ops|
      ensures Reach(start, ops[..m], o).failures > 0
    {
      if m < |ops| {
        assert before[..m] == ops[..m];
      } else {
        assert ops[..m] == ops;
      }
    }
  }

  /** While a session that has sent SSL_shutdown lives, its queue is settled: nothing is
      pending, and OpenSSL took every byte queue_write ever accepted for it, unless a
      flush failed, in a fatal SSL_write or before the handshake was complete. */
  lemma ShutdownFollowsAllData(start: Sock, ops: seq<Op>, o: Oracle, i: nat)
    requires Initial(start)
    requires Reach(start, ops, o).s.live
    requires i < |Reach(start, ops, o).log| && Reach(start, ops, o).log[i].ShutdownCall?
    ensures var k := Reach(start, ops, o);
            && Pending(k.q) == []
            && k.accepted == Octets(k.fates)
            && (k.failures == 0 ==> QueuedPlaintext(Writes(k.log)) == k.accepted)
            && (k.failures > 0 ==> exists n :: FailedAt(start, ops, o, n))
            && !QueueOpen(k)
  {
    hide Reach, Writes, QueuedPlaintext, WrittenOctets, Octets, LogSafe, Flat, Coalesced, FailedAt;
    ReachInv(start, ops, o);
    var k := Reach(start, ops, o);
    assert HasShutdown(k.log);
    assert Octets(k.fates) + [] == Octets(k.fates);
    if k.failures > 0 {
      InitialUnfailed(start);
      FailureHasCause(start, ops, o);
    }
  }

  lemma InitialUnfailed(start: Sock)
    requires Initial(start)
    ensures start.failures == 0
  {
  }
}
