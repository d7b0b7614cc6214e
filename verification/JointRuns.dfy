/** Many TLS sockets under one poller: sessions of user code and polls, in which every
    visit follows the poller's branches and every callback may operate on any socket.
    Each socket's state is that of one run of its own, so that the promises of the
    transport and the evidence for reported closes hold together for the whole session. */
module JointRuns {
  import WriteQueue
  import opened Transport
  import opened TransportInvariant
  import opened TransportTheorems
  import opened TransportLosses

  /** Which sockets there are, as constructed, and what the system and OpenSSL answer
      each of them. */
  datatype World = World(starts: seq<Sock>, answers: nat -> Oracle)

  datatype Action = Action(who: nat, op: Op)

  /** What has happened: an operation on a socket, or a set-level close report of it. */
  datatype Deed = Did(who: nat, op: Op) | Reported(who: nat)

  datatype Joint = Joint(socks: seq<Sock>, deeds: seq<Deed>)

  // ----- what holds --------------------------------------------------------

  predicate AllTls(w: World) {
    forall i :: 0 <= i < |w.starts| ==> w.starts[i].tls
  }

  ghost predicate Plausible(w: World) {
    AllTls(w) && forall i :: 0 <= i < |w.starts| ==> Initial(w.starts[i])
  }

  /** The operations on one socket, in order. */
  function OpsOf(deeds: seq<Deed>, i: nat): seq<Op> {
    if deeds == [] then []
    else
      var last := deeds[|deeds| - 1];
      OpsOf(deeds[..|deeds| - 1], i) + (if last.Did? && last.who == i then [last.op] else [])
  }

  /** The socket after some deeds. */
  ghost function After(w: World, deeds: seq<Deed>, i: nat): Sock
    requires Plausible(w) && i < |w.starts|
  {
    Reach(w.starts[i], OpsOf(deeds, i), w.answers(i))
  }

  /** Deed m is the poll_step of the socket after which the peer's close_notify is in its
      log, and the poller closes it at once. */
  ghost predicate Evidence(w: World, deeds: seq<Deed>, who: nat, m: nat)
    requires Plausible(w)
  {
    && who < |w.starts| && m + 1 < |deeds|
    && deeds[m].Did? && deeds[m].who == who && deeds[m].op.OpPollStep?
    && deeds[m + 1] == Did(who, OpClose)
    && PeerCloseSeen(After(w, deeds[..m + 1], who).log)
  }

  ghost predicate Evidenced(w: World, deeds: seq<Deed>, n: nat)
    requires Plausible(w) && n < |deeds|
  {
    exists m: nat :: m < n && Evidence(w, deeds, deeds[n].who, m)
  }

  ghost predicate Joined(w: World, j: Joint) {
    && Plausible(w) && |j.socks| == |w.starts|
    && (forall i :: 0 <= i < |j.socks| ==> j.socks[i] == After(w, j.deeds, i))
    && (forall n :: 0 <= n < |j.deeds| && j.deeds[n].Reported? ==> Evidenced(w, j.deeds, n))
  }

  // ----- one operation -----------------------------------------------------

  lemma OpsOfSnoc(deeds: seq<Deed>, d: Deed, i: nat)
    ensures OpsOf(deeds + [d], i) == OpsOf(deeds, i) + (if d.Did? && d.who == i then [d.op] else [])
  {
    assert (deeds + [d])[..|deeds|] == deeds;
  }

  lemma EvidenceStays(w: World, deeds: seq<Deed>, more: seq<Deed>, who: nat, m: nat)
    requires Plausible(w) && deeds <= more && Evidence(w, deeds, who, m)
    ensures Evidence(w, more, who, m)
  {
    hide After, PeerCloseSeen, Plausible;
    assert more[..m + 1] == deeds[..m + 1];
  }

  lemma EvidencedStays(w: World, deeds: seq<Deed>, d: Deed, n: nat)
    requires Plausible(w) && n < |deeds| && Evidenced(w, deeds, n)
    ensures Evidenced(w, deeds + [d], n)
  {
    hide Evidence, Plausible;
    var m: nat :| m < n && Evidence(w, deeds, deeds[n].who, m);
    EvidenceStays(w, deeds, deeds + [d], deeds[n].who, m);
  }

  lemma AfterSnoc(w: World, deeds: seq<Deed>, d: Deed, i: nat)
    requires Plausible(w) && i < |w.starts|
    ensures !(d.Did? && d.who == i) ==> After(w, deeds + [d], i) == After(w, deeds, i)
    ensures d.Did? && d.who == i ==>
              Inv(After(w, deeds, i)) &&
              (InvIsValid(After(w, deeds, i));
               After(w, deeds + [d], i) == Apply(After(w, deeds, i), d.op, w.answers(i)))
  {
    hide Inv, Apply, WriteQueue.Valid, Run;
    OpsOfSnoc(deeds, d, i);
    InitialInv(w.starts[i]);
    ReachInv(w.starts[i], OpsOf(deeds, i), w.answers(i));
    if d.Did? && d.who == i {
      var ops := OpsOf(deeds + [d], i);
      assert ops[..|ops| - 1] == OpsOf(deeds, i);
      RunSnoc(w.starts[i], ops, w.answers(i));
    } else {
      assert OpsOf(deeds, i) + [] == OpsOf(deeds, i);
    }
  }

  /** An operation on a socket that exists. */
  ghost function Do(w: World, j: Joint, who: nat, op: Op): (r: Joint)
    requires Joined(w, j)
    ensures Joined(w, r) && j.deeds <= r.deeds
    ensures who < |j.socks| ==> r.deeds == j.deeds + [Did(who, op)]
  {
    if who >= |j.socks| then j
    else
      JoinedInv(w, j, who);
      DoKeeps(w, j, who, op);
      Joint(j.socks[who := Apply(j.socks[who], op, w.answers(who))], j.deeds + [Did(who, op)])
  }

  lemma JoinedInv(w: World, j: Joint, i: nat)
    requires Joined(w, j) && i < |j.socks|
    ensures Inv(j.socks[i]) && WriteQueue.Valid(j.socks[i].q)
  {
    hide Inv, Evidenced, WriteQueue.Valid;
    ReachInv(w.starts[i], OpsOf(j.deeds, i), w.answers(i));
    InvIsValid(j.socks[i]);
  }

  lemma DoKeeps(w: World, j: Joint, who: nat, op: Op)
    requires Joined(w, j) && who < |j.socks| && WriteQueue.Valid(j.socks[who].q)
    ensures Joined(w, Joint(j.socks[who := Apply(j.socks[who], op, w.answers(who))], j.deeds + [Did(who, op)]))
  {
    hide Inv, Apply, Evidenced, After, Plausible, WriteQueue.Valid;
    var d := Did(who, op);
    forall i | 0 <= i < |j.socks|
      ensures j.socks[who := Apply(j.socks[who], op, w.answers(who))][i] == After(w, j.deeds + [d], i)
    {
      AfterSnoc(w, j.deeds, d, i);
    }
    forall n | 0 <= n < |j.deeds + [d]| && (j.deeds + [d])[n].Reported?
      ensures Evidenced(w, j.deeds + [d], n)
    {
      EvidencedStays(w, j.deeds, d, n);
    }
  }

  /** A set-level close report of a socket, with its evidence. */
  ghost function Report(w: World, j: Joint, who: nat, m: nat): (r: Joint)
    requires Joined(w, j) && Evidence(w, j.deeds, who, m)
    ensures Joined(w, r) && j.deeds <= r.deeds
  {
    ReportKeeps(w, j, who, m);
    j.(deeds := j.deeds + [Reported(who)])
  }

  lemma ReportKeeps(w: World, j: Joint, who: nat, m: nat)
    requires Joined(w, j) && Evidence(w, j.deeds, who, m)
    ensures Joined(w, j.(deeds := j.deeds + [Reported(who)]))
  {
    hide Evidence, After, Plausible;
    var d := Reported(who);
    var more := j.deeds + [d];
    forall i | 0 <= i < |j.socks|
      ensures j.socks[i] == After(w, more, i)
    {
      AfterSnoc(w, j.deeds, d, i);
    }
    EvidenceStays(w, j.deeds, more, who, m);
    assert m < |j.deeds| by { EvidenceIsEarlier(w, j.deeds, who, m); }
    forall n | 0 <= n < |more| && more[n].Reported?
      ensures Evidenced(w, more, n)
    {
      if n < |j.deeds| {
        EvidencedStays(w, j.deeds, d, n);
      } else {
        assert more[n] == d;
      }
    }
  }

  lemma EvidenceIsEarlier(w: World, deeds: seq<Deed>, who: nat, m: nat)
    requires Plausible(w) && Evidence(w, deeds, who, m)
    ensures m + 1 < |deeds|
  {
  }

  // ----- user code ---------------------------------------------------------

  /** Any operations on any sockets, between polls or inside a callback. */
  ghost function UserCode(w: World, j: Joint, script: seq<Action>): (r: Joint)
    requires Joined(w, j)
    ensures Joined(w, r) && j.deeds <= r.deeds && |r.socks| == |j.socks|
    decreases |script|
  {
    if script == [] then j
    else
      var j1 := Do(w, j, script[0].who, script[0].op);
      SameNumber(w, j, j1);
      UserCode(w, j1, script[1..])
  }

  lemma SameNumber(w: World, j: Joint, j1: Joint)
    requires Joined(w, j) && Joined(w, j1)
    ensures |j1.socks| == |j.socks|
  {
  }

  // ----- a visit -----------------------------------------------------------

  /** A visit's readiness, what its callbacks do in order, and the outcomes of the
      poller's checks that a socket is still registered, or under its descriptor. */
  datatype Visiting = Visiting(who: nat, flags: Flags, scripts: nat -> seq<Action>, checks: nat -> bool)

  /** The error callbacks, and the close of a socket that survives them. */
  ghost function Fail(w: World, j: Joint, v: Visiting, first: nat): (r: Joint)
    requires Joined(w, j) && v.who < |j.socks|
    ensures Joined(w, r) && j.deeds <= r.deeds && |r.socks| == |j.socks|
  {
    var j1 := UserCode(w, j, v.scripts(first));
    if v.checks(first) && j1.socks[v.who].valid then
      UserCode(w, Do(w, j1, v.who, OpClose), v.scripts(first + 1))
    else j1
  }

  /** Verdict 3 of the poll_step that was deed m: close, and report it if the socket is
      still registered. */
  ghost function CloseInOrder(w: World, j: Joint, v: Visiting): (r: Joint)
    requires Joined(w, j) && v.who < |j.socks| && |j.deeds| > 0
    requires j.deeds[|j.deeds| - 1].Did? && j.deeds[|j.deeds| - 1].who == v.who
    requires j.deeds[|j.deeds| - 1].op.OpPollStep? && PeerCloseSeen(j.socks[v.who].log)
    ensures Joined(w, r) && j.deeds <= r.deeds
  {
    var j1 := Do(w, j, v.who, OpClose);
    ClosedIsEvidenced(w, j, v.who);
    var j2 := UserCode(w, j1, v.scripts(0));
    EvidenceStays(w, j1.deeds, j2.deeds, v.who, |j.deeds| - 1);
    if v.checks(0) then UserCode(w, Report(w, j2, v.who, |j.deeds| - 1), v.scripts(1)) else j2
  }

  lemma ClosedIsEvidenced(w: World, j: Joint, who: nat)
    requires Joined(w, j) && who < |j.socks| && |j.deeds| > 0
    requires j.deeds[|j.deeds| - 1].Did? && j.deeds[|j.deeds| - 1].who == who
    requires j.deeds[|j.deeds| - 1].op.OpPollStep? && PeerCloseSeen(j.socks[who].log)
    ensures Plausible(w) && Evidence(w, j.deeds + [Did(who, OpClose)], who, |j.deeds| - 1)
  {
    hide After, PeerCloseSeen, Evidenced;
    var more := j.deeds + [Did(who, OpClose)];
    assert more[..|j.deeds|] == j.deeds;
  }

  /** The read half: what arrives, or fails, is reported.  A TLS read never answers that
      the stream has ended. */
  ghost function ReadHalf(w: World, j: Joint, v: Visiting): (r: Joint)
    requires Joined(w, j) && v.who < |j.socks|
    ensures Joined(w, r) && j.deeds <= r.deeds && |r.socks| == |j.socks|
  {
    var k := j.socks[v.who];
    var read := PollReceive(k, w.answers(v.who));
    if ReadReady(k, v.flags) then
      var j1 := Do(w, j, v.who, OpRead);
      SameNumber(w, j, j1);
      if read.count > 0 then UserCode(w, j1, v.scripts(0))
      else if read.errno != WouldBlock then Fail(w, j1, v, 0)
      else j1
    else if v.flags.err || v.flags.nval then UserCode(w, j, v.scripts(0))
    else j
  }

  /** The write half, for a socket still registered under its descriptor. */
  ghost function WriteHalf(w: World, j: Joint, v: Visiting): (r: Joint)
    requires Joined(w, j) && v.who < |j.socks|
    ensures Joined(w, r) && j.deeds <= r.deeds && |r.socks| == |j.socks|
  {
    var k := j.socks[v.who];
    JoinedInv(w, j, v.who);
    var flushed := Flush(k, SEND_BUDGET, w.answers(v.who));
    if v.checks(2) && k.valid && QueueReady(k, v.flags) then
      var j1 := Do(w, j, v.who, OpFlush);
      SameNumber(w, j, j1);
      if flushed.failed then Fail(w, j1, v, 3)
      else if flushed.drained then UserCode(w, j1, v.scripts(3))
      else j1
    else j
  }

  /** One visit of the dispatch loop. */
  ghost function Visit(w: World, j: Joint, v: Visiting): (r: Joint)
    requires Joined(w, j)
    ensures Joined(w, r) && j.deeds <= r.deeds
  {
    if v.who >= |j.socks| || !v.checks(9) || !j.socks[v.who].valid then j
    else
      var code := PollStep(j.socks[v.who], v.flags, w.answers(v.who)).1;
      var j1 := Do(w, j, v.who, OpPollStep(v.flags));
      SameNumber(w, j, j1);
      VerdictThree(w, j, v.who, v.flags);
      if code < 0 then Fail(w, j1, v, 0)
      else if code == 0 then j1
      else if code == 3 then CloseInOrder(w, j1, v)
      else if code == 2 then UserCode(w, j1, v.scripts(0))
      else WriteHalf(w, ReadHalf(w, j1, v), v)
  }

  lemma VerdictThree(w: World, j: Joint, who: nat, f: Flags)
    requires Joined(w, j) && who < |j.socks|
    ensures PollStep(j.socks[who], f, w.answers(who)).1 == 3 ==>
              PeerCloseSeen(Do(w, j, who, OpPollStep(f)).socks[who].log)
  {
    hide PeerCloseSeen, PollStep, Evidenced, Inv, Reach;
    JoinedInv(w, j, who);
    OrderlyCloseNeedsCloseNotify(w.starts[who], OpsOf(j.deeds, who), f, w.answers(who));
  }

  // ----- what a visit does -------------------------------------------------

  ghost predicate Uneventful(v: Visiting) {
    forall n :: v.scripts(n) == [] && v.checks(n)
  }

  /** The operations of an undisturbed visit from state k: poll_step, and by its verdict a
      close, a reported close, or a read if it is ready and a flush if it is, each closed
      after if it failed for good. */
  ghost function VisitOps(k: Sock, f: Flags, o: Oracle): seq<Op>
    requires WriteQueue.Valid(k.q)
  {
    var (k1, code) := PollStep(k, f, o);
    [OpPollStep(f)] +
    if code < 0 then (if k1.valid then [OpClose] else [])
    else if code == 3 then [OpClose]
    else if code != 1 then []
    else if ReadReady(k, f) then
      var r := PollReceive(k, o);
      ReadKeepsQueue(k, o);
      [OpRead] +
      if r.count <= 0 && r.errno != WouldBlock then [OpClose] else FlushOps(r.k, f, o)
    else FlushOps(k, f, o)
  }

  lemma ReadKeepsQueue(k: Sock, o: Oracle)
    ensures PollReceive(k, o).k.q == k.q && PollReceive(k, o).k.valid == k.valid
  {
    hide AfterRead;
  }

  lemma StepKeepsDescriptor(k: Sock, f: Flags, o: Oracle)
    ensures PollStep(k, f, o).0.valid == k.valid
  {
  }

  ghost function FlushOps(k: Sock, f: Flags, o: Oracle): seq<Op>
    requires WriteQueue.Valid(k.q)
  {
    if !k.valid || !QueueReady(k, f) then []
    else
      var r := Flush(k, SEND_BUDGET, o);
      [OpFlush] + if r.failed && r.k.valid then [OpClose] else []
  }

  lemma DoesNothing(w: World, j: Joint)
    requires Joined(w, j)
    ensures UserCode(w, j, []) == j
  {
  }

  lemma FailDeeds(w: World, j: Joint, v: Visiting, first: nat)
    requires Joined(w, j) && v.who < |j.socks| && Uneventful(v)
    ensures Fail(w, j, v, first).deeds == j.deeds + if j.socks[v.who].valid then [Did(v.who, OpClose)] else []
    ensures !j.socks[v.who].valid ==> Fail(w, j, v, first) == j
    ensures j.socks[v.who].valid ==> Fail(w, j, v, first) == Do(w, j, v.who, OpClose)
  {
    hide Inv, Evidenced, After, Plausible;
    DoesNothing(w, j);
    if j.socks[v.who].valid {
      DoesNothing(w, Do(w, j, v.who, OpClose));
    }
  }

  lemma WriteDeeds(w: World, j: Joint, v: Visiting)
    requires Joined(w, j) && v.who < |j.socks| && Uneventful(v)
    ensures WriteQueue.Valid(j.socks[v.who].q)
    ensures WriteHalf(w, j, v).deeds == j.deeds + DeedsOf(v.who, FlushOps(j.socks[v.who], v.flags, w.answers(v.who)))
  {
    hide Inv, Evidenced, After, Plausible, Flush, Fail, QueueReady, Joined, WriteQueue.Valid;
    JoinedInv(w, j, v.who);
    var k := j.socks[v.who];
    if k.valid && QueueReady(k, v.flags) {
      var j1 := Do(w, j, v.who, OpFlush);
      SameNumber(w, j, j1);
      DidLeaves(w, j, v.who, OpFlush);
      FailDeeds(w, j1, v, 3);
      DoesNothing(w, j1);
    }
  }

  lemma DidLeaves(w: World, j: Joint, who: nat, op: Op)
    requires Joined(w, j) && who < |j.socks|
    ensures |Do(w, j, who, op).socks| == |j.socks| && WriteQueue.Valid(j.socks[who].q)
    ensures Do(w, j, who, op).socks[who] == Apply(j.socks[who], op, w.answers(who))
  {
    hide Inv, Evidenced, After, Plausible, Apply, WriteQueue.Valid;
    JoinedInv(w, j, who);
  }

  lemma ReadDeeds(w: World, j: Joint, v: Visiting)
    requires Joined(w, j) && v.who < |j.socks| && Uneventful(v) && j.socks[v.who].valid
    requires !v.flags.err && !v.flags.nval
    ensures var (k, o) := (j.socks[v.who], w.answers(v.who));
            var r := PollReceive(k, o);
            var j' := ReadHalf(w, j, v);
            && |j'.socks| == |j.socks|
            && (!ReadReady(k, v.flags) ==> j' == j)
            && (ReadReady(k, v.flags) && !(r.count <= 0 && r.errno != WouldBlock) ==>
                  j'.deeds == j.deeds + [Did(v.who, OpRead)] && j'.socks[v.who] == r.k)
            && (ReadReady(k, v.flags) && r.count <= 0 && r.errno != WouldBlock ==>
                  j'.deeds == j.deeds + [Did(v.who, OpRead), Did(v.who, OpClose)] && !j'.socks[v.who].valid)
  {
    hide Inv, Evidenced, After, Plausible, Fail, Joined, WriteQueue.Valid, PollReceive, ReadReady, Apply, Close;
    DidLeaves(w, j, v.who, OpRead);
    var k := j.socks[v.who];
    var j1 := Do(w, j, v.who, OpRead);
    ReadApplies(k, w.answers(v.who));
    ReadKeepsQueue(k, w.answers(v.who));
    DoesNothing(w, j1);
    FailDeeds(w, j1, v, 0);
    DidLeaves(w, j1, v.who, OpClose);
    CloseApplies(j1.socks[v.who], w.answers(v.who));
    assert j.deeds + [Did(v.who, OpRead)] + [Did(v.who, OpClose)]
        == j.deeds + [Did(v.who, OpRead), Did(v.who, OpClose)];
  }

  lemma ReadApplies(k: Sock, o: Oracle)
    requires WriteQueue.Valid(k.q)
    ensures Apply(k, OpRead, o) == PollReceive(k, o).k
    ensures PollReceive(k, o).count > 0 ==> PollReceive(k, o).errno == NoError
  {
    hide AfterRead;
  }

  lemma CloseApplies(k: Sock, o: Oracle)
    requires WriteQueue.Valid(k.q)
    ensures !Apply(k, OpClose, o).valid
  {
    hide WriteQueue.Pending, AsDiscarded;
  }

  lemma StepApplies(k: Sock, f: Flags, o: Oracle)
    requires WriteQueue.Valid(k.q)
    ensures Apply(k, OpPollStep(f), o) == PollStep(k, f, o).0
    ensures PollStep(k, f, o).1 == 1 && k.tls ==> !f.err && !f.nval && PollStep(k, f, o).0 == k
  {
  }

  /** poll_step's part of a visit. */
  lemma Stepped(w: World, j: Joint, v: Visiting)
    requires Joined(w, j) && v.who < |j.socks| && j.socks[v.who].valid
    ensures WriteQueue.Valid(j.socks[v.who].q)
    ensures var (k, o) := (j.socks[v.who], w.answers(v.who));
            var j1 := Do(w, j, v.who, OpPollStep(v.flags));
            && |j1.socks| == |j.socks| && j1.deeds == j.deeds + [Did(v.who, OpPollStep(v.flags))]
            && j1.socks[v.who] == PollStep(k, v.flags, o).0 && j1.socks[v.who].valid
            && (PollStep(k, v.flags, o).1 == 1 && k.tls ==> !v.flags.err && !v.flags.nval && j1.socks[v.who] == k)
  {
    hide Inv, Evidenced, After, Plausible, Joined, WriteQueue.Valid, PollStep, Apply;
    DidLeaves(w, j, v.who, OpPollStep(v.flags));
    StepApplies(j.socks[v.who], v.flags, w.answers(v.who));
    StepKeepsDescriptor(j.socks[v.who], v.flags, w.answers(v.who));
  }

  lemma DataDeeds(w: World, j: Joint, v: Visiting)
    requires Joined(w, j) && v.who < |j.socks| && Uneventful(v) && j.socks[v.who].valid && j.socks[v.who].tls
    requires PollStep(j.socks[v.who], v.flags, w.answers(v.who)).1 == 1
    ensures WriteQueue.Valid(j.socks[v.who].q)
    ensures Visit(w, j, v).deeds
         == j.deeds + DeedsOf(v.who, VisitOps(j.socks[v.who], v.flags, w.answers(v.who)))
  {
    hide Inv, Evidenced, After, Plausible, Joined, WriteQueue.Valid, PollStep, PollReceive, ReadReady, Apply, Flush,
         QueueReady, Fail, ReadHalf, WriteHalf, PeerCloseSeen, FlushOps, CloseInOrder;
    Stepped(w, j, v);
    var (k, o) := (j.socks[v.who], w.answers(v.who));
    var j1 := Do(w, j, v.who, OpPollStep(v.flags));
    ReadDeeds(w, j1, v);
    var j2 := ReadHalf(w, j1, v);
    WriteDeeds(w, j2, v);
    ClosedFlushesNothing(j2.socks[v.who], v.flags, o);
    var r := PollReceive(k, o);
    ReadKeepsQueue(k, o);
    if ReadReady(k, v.flags) {
      if r.count <= 0 && r.errno != WouldBlock {
        assert VisitOps(k, v.flags, o) == [OpPollStep(v.flags), OpRead, OpClose];
      } else {
        DeedsJoin(v.who, [OpPollStep(v.flags), OpRead], FlushOps(r.k, v.flags, o));
        assert VisitOps(k, v.flags, o) == [OpPollStep(v.flags), OpRead] + FlushOps(r.k, v.flags, o);
      }
    } else {
      DeedsJoin(v.who, [OpPollStep(v.flags)], FlushOps(k, v.flags, o));
    }
  }

  lemma ClosedFlushesNothing(k: Sock, f: Flags, o: Oracle)
    ensures WriteQueue.Valid(k.q) && !k.valid ==> FlushOps(k, f, o) == []
  {
    hide WriteQueue.Valid, Flush;
  }

  lemma EndDeeds(w: World, j: Joint, v: Visiting)
    requires Joined(w, j) && v.who < |j.socks| && Uneventful(v) && j.socks[v.who].valid
    requires PollStep(j.socks[v.who], v.flags, w.answers(v.who)).1 == 3
    ensures Visit(w, j, v).deeds
         == j.deeds + [Did(v.who, OpPollStep(v.flags)), Did(v.who, OpClose), Reported(v.who)]
  {
    hide Inv, Evidenced, After, Plausible, WriteQueue.Valid, PollStep, Apply, ReadHalf, WriteHalf, PeerCloseSeen;
    Stepped(w, j, v);
    VerdictThree(w, j, v.who, v.flags);
    var j1 := Do(w, j, v.who, OpPollStep(v.flags));
    var j2 := Do(w, j1, v.who, OpClose);
    ClosedIsEvidenced(w, j1, v.who);
    DoesNothing(w, j2);
    EvidenceStays(w, j2.deeds, j2.deeds, v.who, |j1.deeds| - 1);
    DoesNothing(w, Report(w, j2, v.who, |j1.deeds| - 1));
  }

  /** A visit that meets an open socket and whose callbacks do nothing performs exactly these
      operations on it, and reports it closed exactly by verdict 3. */
  lemma VisitDeeds(w: World, j: Joint, v: Visiting)
    requires Joined(w, j) && v.who < |j.socks| && Uneventful(v) && j.socks[v.who].valid && j.socks[v.who].tls
    ensures WriteQueue.Valid(j.socks[v.who].q)
    ensures var (k, o) := (j.socks[v.who], w.answers(v.who));
            Visit(w, j, v).deeds == j.deeds + DeedsOf(v.who, VisitOps(k, v.flags, o))
                                    + if PollStep(k, v.flags, o).1 == 3 then [Reported(v.who)] else []
  {
    hide Inv, Evidenced, After, Plausible, Joined, WriteQueue.Valid, PollStep, PollReceive, ReadReady, Apply, Flush,
         QueueReady, Fail, ReadHalf, WriteHalf, PeerCloseSeen, FlushOps, CloseInOrder;
    Stepped(w, j, v);
    StepVerdicts(j.socks[v.who], v.flags, w.answers(v.who));
    var code := PollStep(j.socks[v.who], v.flags, w.answers(v.who)).1;
    var j1 := Do(w, j, v.who, OpPollStep(v.flags));
    if code == 1 {
      DataDeeds(w, j, v);
    } else if code == 3 {
      EndDeeds(w, j, v);
    } else if code < 0 {
      FailDeeds(w, j1, v, 0);
    } else if code == 2 {
      DoesNothing(w, j1);
    }
  }

  lemma DeedsJoin(who: nat, a: seq<Op>, b: seq<Op>)
    ensures DeedsOf(who, a + b) == DeedsOf(who, a) + DeedsOf(who, b)
  {
  }

  function DeedsOf(who: nat, ops: seq<Op>): seq<Deed> {
    seq(|ops|, i requires 0 <= i < |ops| => Did(who, ops[i]))
  }

  // ----- sessions ----------------------------------------------------------

  datatype Round = User(script: seq<Action>) | Poll(visits: seq<Visiting>)

  ghost function PollAll(w: World, j: Joint, visits: seq<Visiting>): (r: Joint)
    requires Joined(w, j)
    ensures Joined(w, r) && j.deeds <= r.deeds
    decreases |visits|
  {
    if visits == [] then j else PollAll(w, Visit(w, j, visits[0]), visits[1..])
  }

  ghost function Rounds(w: World, j: Joint, rounds: seq<Round>): (r: Joint)
    requires Joined(w, j)
    ensures Joined(w, r) && j.deeds <= r.deeds
    decreases |rounds|
  {
    if rounds == [] then j
    else
      match rounds[0]
      case User(script) => Rounds(w, UserCode(w, j, script), rounds[1..])
      case Poll(visits) => Rounds(w, PollAll(w, j, visits), rounds[1..])
  }

  lemma Beginning(w: World)
    requires Plausible(w)
    ensures Joined(w, Joint(w.starts, []))
  {
    hide Inv;
    forall i | 0 <= i < |w.starts|
      ensures w.starts[i] == After(w, [], i)
    {
      InitialInv(w.starts[i]);
    }
  }

  /** Whatever user code, callbacks, the system and OpenSSL do over any number of polls:
      every close the poller reports has the peer's close_notify behind it and follows its
      own close of the socket, and the writes of every socket's session keep OpenSSL's
      rules: blocked ones are repeated, direct data overtakes nothing and nothing follows
      a shutdown. */
  lemma SessionPromises(w: World, rounds: seq<Round>)
    requires Plausible(w)
    ensures Joined(w, Joint(w.starts, []))
    ensures var j := Rounds(w, Joint(w.starts, []), rounds);
            && (forall n :: 0 <= n < |j.deeds| && j.deeds[n].Reported? ==> Evidenced(w, j.deeds, n))
            && (forall i :: 0 <= i < |j.socks| ==> LogSafe(j.socks[i].log))
            && (forall i :: 0 <= i < |j.socks| ==> j.socks[i] == After(w, j.deeds, i))
  {
    hide LogSafe, Evidenced, After, Rounds;
    Beginning(w);
    var j := Rounds(w, Joint(w.starts, []), rounds);
    forall i | 0 <= i < |j.socks|
      ensures LogSafe(j.socks[i].log)
    {
      JoinedInv(w, j, i);
      InvIsSafe(j.socks[i]);
    }
  }

  lemma InvIsSafe(k: Sock)
    requires Inv(k)
    ensures LogSafe(k.log)
  {
  }
}
