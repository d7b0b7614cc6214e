/** Where the poller and the TLS transport meet: what a set-level close proves. */
module CloseEvidence {
  import opened Transport
  import opened TransportInvariant
  import opened TransportTheorems
  import SocketTraces

  /** The hooks of a visit answer as the transport in state k does: poll_step first
      and, if application data may flow and is ready, poll_receive after it. */
  ghost predicate AnswersFor(h: SocketTraces.Hooks, k: Sock, o: Oracle) {
    var (k1, step) := PollStep(k, h.flags, o);
    && h.step == step
    && (step == 1 ==> h.readReady == ReadReady(k1, h.flags) && h.received == PollReceive(k1, o).count)
  }

  /** The poller reports a TLS socket closed only where SocketTraces.MayClose allows it,
      and in every run that implies that the peer's close_notify has been seen: a
      truncated stream is never reported as a close. */
  lemma SetCloseNeedsCloseNotify(start: Sock, ops: seq<Op>, h: SocketTraces.Hooks, o: Oracle)
    requires Initial(start)
    requires Reach(start, ops, o).tls && AnswersFor(h, Reach(start, ops, o), o)
    ensures SocketTraces.MayClose(h) ==> h.step == 3
    ensures SocketTraces.MayClose(h) ==> PeerCloseSeen(PollStep(Reach(start, ops, o), h.flags, o).0.log)
  {
    hide Reach, PeerCloseSeen, PollStep, PollReceive, ReadReady;
    OrderlyCloseNeedsCloseNotify(start, ops, h.flags, o);
    var k := Reach(start, ops, o);
    StepOneIsIdle(k, h.flags, o);
    StepVerdicts(k, h.flags, o);
  }

  // ----- the events of a whole poll ----------------------------------------

  /** How a watched socket came to its visit: any run, and what its answers are. */
  datatype History = History(start: Sock, ops: seq<Op>, answers: Oracle)

  ghost predicate Credible(x: History) {
    Initial(x.start)
  }

  ghost function Before(x: History): Sock
    requires Credible(x)
  {
    Reach(x.start, x.ops, x.answers)
  }

  /** The log of the session after poll_step, when a close may be reported. */
  ghost function LogAtVisit(x: History, f: Flags): seq<SslEvent>
    requires Credible(x)
  {
    PollStep(Before(x), f, x.answers).0.log
  }

  /** Each TLS socket of the snapshot comes out of a run and answers its visit's hooks as
      the transport does. */
  ghost predicate HooksAnswer(ws: seq<SocketTraces.Watch>, hooks: nat -> SocketTraces.Hooks,
                              histories: nat -> History)
  {
    forall k :: 0 <= k < |ws| ==>
      Credible(histories(k)) &&
      (Before(histories(k)).tls ==> AnswersFor(hooks(k), Before(histories(k)), histories(k).answers))
  }

  /** The report of event e is that of the k-th visit, and for a TLS socket the peer's
      close_notify is in the session's log by then. */
  ghost predicate Evidenced(ws: seq<SocketTraces.Watch>, hooks: nat -> SocketTraces.Hooks, histories: nat -> History,
                            k: nat, t: nat)
  {
    && k < |ws| && ws[k].token == t && Credible(histories(k))
    && (Before(histories(k)).tls ==> PeerCloseSeen(LogAtVisit(histories(k), hooks(k).flags)))
  }

  /** Every set-level close that a poll reports for a TLS socket has the peer's
      close_notify behind it. */
  lemma ReportedClosesAreEvidenced(trace: seq<SocketTraces.Event>, trace': seq<SocketTraces.Event>,
                                   ws: seq<SocketTraces.Watch>, hooks: nat -> SocketTraces.Hooks,
                                   histories: nat -> History, i: nat)
    requires SocketTraces.ClosesWarranted(trace, trace', ws, hooks, |ws|) && HooksAnswer(ws, hooks, histories)
    requires |trace| <= i < |trace'| && trace'[i].Fired? && trace'[i].what.OnSocketClose?
    ensures exists k :: Evidenced(ws, hooks, histories, k, trace'[i].token)
  {
    hide Before, AnswersFor, SocketTraces.MayClose, LogAtVisit, PeerCloseSeen;
    var t := trace'[i].token;
    assert SocketTraces.CloseAllowed(ws, hooks, |ws|, t);
    var k :| 0 <= k < |ws| && ws[k].token == t && SocketTraces.MayClose(hooks(k));
    var x := histories(k);
    assert Credible(x);
    if Before(x).tls {
      VisitIsEvidenced(x, hooks(k));
    }
    assert Evidenced(ws, hooks, histories, k, t);
  }

  lemma VisitIsEvidenced(x: History, h: SocketTraces.Hooks)
    requires Credible(x) && Before(x).tls && AnswersFor(h, Before(x), x.answers) && SocketTraces.MayClose(h)
    ensures PeerCloseSeen(LogAtVisit(x, h.flags))
  {
    hide AnswersFor, SocketTraces.MayClose, PeerCloseSeen, Reach, PollStep, Credible;
    assert Initial(x.start) by { CredibleStarts(x); }
    SetCloseNeedsCloseNotify(x.start, x.ops, h, x.answers);
  }

  lemma CredibleStarts(x: History)
    requires Credible(x)
    ensures Initial(x.start)
  {
  }
}
