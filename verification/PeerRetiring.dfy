/** Closing every owned peer when handlers retire peers of an earlier generation: an
    exact condition that can be computed from the list and the handlers alone. */
module PeerRetiring {
  import opened PeerCollections
  import opened PeerClosing

  // ----- handlers that close no other open peer ----------------------------

  /** Whatever these handlers retire or close, it is their own peer or one that is not
      in open; and they accept peers of the pool only.  Closing everyone is free. */
  predicate Considerate(ops: seq<PeerOp>, p: nat, open: set<nat>, pool: set<nat>) {
    forall i :: 0 <= i < |ops| ==>
      match ops[i]
      case Retire(q) => q == p || q !in open
      case ClosePeer(q) => q == p || q !in open
      case Accept(q) => q in pool
      case CloseAll => true
  }

  /** The handlers of all open peers of the pool are. */
  ghost predicate AllConsiderate(h: Handlers, open: set<nat>, pool: set<nat>) {
    forall p :: p in open && p in pool ==> Considerate(h(p), p, open, pool)
  }

  ghost predicate Within(s: seq<nat>, pool: set<nat>) {
    forall p :: p in s ==> p in pool
  }

  lemma ConsiderateLater(h: Handlers, open: set<nat>, fewer: set<nat>, pool: set<nat>)
    requires AllConsiderate(h, open, pool) && fewer <= open
    ensures AllConsiderate(h, fewer, pool)
  {
  }

  /** Such an operation of a peer that is closed by now closes nobody and brings in
      nobody from outside the pool. */
  lemma ConsiderateOperation(st: Peers, op: PeerOp, h: Handlers, pool: set<nat>)
    requires InStep(st) && st.closing && Within(st.owned, pool)
    requires op.Retire? || op.ClosePeer? ==> op.peer !in st.unclosed
    requires op.Accept? ==> op.peer in pool
    ensures Perform(st, op, h).unclosed == st.unclosed && Within(Perform(st, op, h).owned, pool)
  {
    hide Keep, Distinct, Descends;
    match op
    case Retire(q) =>
      if q in st.owned {
        RetireClosedPeer(st, q, h);
      }
    case Accept(_) =>
    case ClosePeer(q) =>
      ClosedUnchanged(st, q);
    case CloseAll =>
  }

  lemma {:induction false} ConsiderateHandler(st: Peers, ops: seq<PeerOp>, p: nat, open: set<nat>, pool: set<nat>,
                                              h: Handlers)
    requires InStep(st) && st.closing && Within(st.owned, pool)
    requires Considerate(ops, p, open, pool) && st.unclosed <= open && p !in st.unclosed
    ensures var r := RunHandler(st, ops, h); r.unclosed == st.unclosed && Within(r.owned, pool)
    decreases |ops|
  {
    hide InStep, Keep, Perform, Within;
    if ops != [] {
      ConsiderateOperation(st, ops[0], h, pool);
      assert Considerate(ops[1..], p, open, pool) by {
        assert forall i :: 0 <= i < |ops[1..]| ==> ops[1..][i] == ops[i + 1];
      }
      ConsiderateHandler(Perform(st, ops[0], h), ops[1..], p, open, pool, h);
    }
  }

  /** Handlers that are considerate towards the peers now open close no other open peer
      for the rest of the loop. */
  lemma {:induction false} ConsiderateIsOnlyOwn(st: Peers, index: nat, h: Handlers, pool: set<nat>)
    requires InStep(st) && st.closing && Within(st.owned, pool) && AllConsiderate(h, st.unclosed, pool)
    ensures OnlyOwn(st, index, h)
    decreases |st.unclosed|, |st.owned| - index
  {
    hide Keep, Distinct, Descends, RunHandler, AllConsiderate, Next, Considerate;
    if index < |st.owned| {
      var peer := st.owned[index];
      TurnDescends(st, index, h);
      var st1 := Close(st, peer, h);
      if peer in st.unclosed {
        ConsiderateOne(h, st.unclosed, peer, pool);
        ConsiderateHandler(MarkClosed(st, peer), h(peer), peer, st.unclosed, pool, h);
      } else {
        assert st.unclosed - {peer} == st.unclosed;
      }
      ConsiderateLater(h, st.unclosed, st1.unclosed, pool);
      ConsiderateIsOnlyOwn(st1, Next(st, index, st1), h, pool);
    }
  }

  lemma ConsiderateOne(h: Handlers, open: set<nat>, p: nat, pool: set<nat>)
    requires AllConsiderate(h, open, pool) && p in open && p in pool
    ensures Considerate(h(p), p, open, pool)
  {
  }

  // ----- two generations ---------------------------------------------------

  function Targets(ops: seq<PeerOp>): set<nat> {
    set i | 0 <= i < |ops| && ops[i].Retire? :: ops[i].peer
  }

  /** All the handlers of the owned peers do is retire peers: their own, or, unless they
      belong to the front themselves, peers of the front. */
  ghost predicate RetireFront(owned: seq<nat>, front: seq<nat>, h: Handlers) {
    forall p :: p in owned ==> RetiresFront(h(p), p, front)
  }

  predicate RetiresFront(ops: seq<PeerOp>, p: nat, front: seq<nat>) {
    forall i :: 0 <= i < |ops| ==>
      ops[i].Retire? && (ops[i].peer == p || (p !in front && ops[i].peer in front))
  }

  /** Whom the handlers of the first j peers retire. */
  function Gone(owned: seq<nat>, j: nat, h: Handlers): (gone: set<nat>)
    requires j <= |owned|
  {
    if j == 0 then {} else Gone(owned, j - 1, h) + Targets(h(owned[j - 1]))
  }

  /** Whom the handler of peer j retires that no handler before it does. */
  function NewlyGone(owned: seq<nat>, j: nat, h: Handlers): set<nat>
    requires j < |owned|
  {
    Targets(h(owned[j])) - Gone(owned, j, h)
  }

  // ----- the run -----------------------------------------------------------

  function Elements(s: seq<nat>): set<nat> {
    set p | p in s
  }

  /** The collection when peer j has its turn and nobody has been stepped over. */
  function At(st: Peers, j: nat, h: Handlers): Peers
    requires j <= |st.owned|
  {
    var gone := st.retired + Gone(st.owned, j, h);
    Peers(Keep(st.owned, gone), Keep(st.owned, gone), st.closing,
          st.unclosed - Elements(st.owned[..j]), gone, st.closes + st.owned[..j])
  }

  /** The slot of the loop then. */
  function Slot(st: Peers, j: nat, h: Handlers): nat
    requires j <= |st.owned|
  {
    |Keep(st.owned[..j], st.retired + Gone(st.owned, j, h))|
  }

  /** Two generations, everybody open. */
  ghost predicate Setting(st: Peers, d: nat, h: Handlers) {
    && InStep(st) && st.closing && d <= |st.owned| && RetireFront(st.owned, st.owned[..d], h)
    && forall p :: p in st.owned ==> p in st.unclosed
  }

  /** Handlers reach back only. */
  lemma TargetsReachBack(st: Peers, d: nat, j: nat, h: Handlers)
    requires Setting(st, d, h) && j < |st.owned|
    ensures forall q :: q in Targets(h(st.owned[j])) ==> q in st.owned[..j + 1]
  {
    hide InStep;
    var front := st.owned[..d];
    assert st.owned[..j + 1][j] == st.owned[j];
    if j < d {
      assert front[j] == st.owned[j];
    }
    forall q | q in Targets(h(st.owned[j]))
      ensures q in st.owned[..j + 1]
    {
      if q != st.owned[j] {
        assert st.owned[j] !in front && q in front;
        var i :| 0 <= i < |front| && front[i] == q;
        assert st.owned[..j + 1][i] == q;
      }
    }
  }

  lemma {:induction false} GoneReachesBack(st: Peers, d: nat, j: nat, h: Handlers)
    requires Setting(st, d, h) && j <= |st.owned|
    ensures forall q :: q in Gone(st.owned, j, h) ==> q in st.owned[..j]
  {
    hide Setting, Targets;
    if j > 0 {
      GoneReachesBack(st, d, j - 1, h);
      TargetsReachBack(st, d, j - 1, h);
      forall q | q in st.owned[..j - 1]
        ensures q in st.owned[..j]
      {
        var i :| 0 <= i < j - 1 && st.owned[..j - 1][i] == q;
        assert st.owned[..j][i] == q;
      }
    }
  }

  function Lost(s: seq<nat>, gone: set<nat>): set<nat> {
    set x | x in s && x in gone
  }

  /** How many of a list are kept. */
  lemma {:induction false} KeptCount(s: seq<nat>, gone: set<nat>)
    requires Distinct(s)
    ensures |Keep(s, gone)| + |Lost(s, gone)| == |s|
  {
    if s == [] {
      assert Lost(s, gone) == {};
    } else {
      var n := |s| - 1;
      var before := s[..n];
      KeepLast(s, gone);
      hide Keep;
      assert s == before + [s[n]];
      KeptCount(before, gone);
      assert s[n] !in before;
      if s[n] in gone {
        assert Lost(s, gone) == Lost(before, gone) + {s[n]};
      } else {
        assert Lost(s, gone) == Lost(before, gone);
        assert |Keep(s, gone)| == |Keep(before, gone)| + 1;
      }
    }
  }

  lemma PrefixDistinct(s: seq<nat>, n: nat)
    requires Distinct(s) && n <= |s|
    ensures Distinct(s[..n])
  {
  }

  /** Of the first n peers as many are kept as have not gone. */
  lemma KeptOfPrefix(st: Peers, d: nat, n: nat, j: nat, h: Handlers)
    requires Setting(st, d, h) && j <= n <= |st.owned|
    ensures |Keep(st.owned[..n], st.retired + Gone(st.owned, j, h))| == n - |Gone(st.owned, j, h)|
  {
    hide Keep, Distinct, RetireFront;
    var gone := Gone(st.owned, j, h);
    var s := st.owned[..n];
    PrefixDistinct(st.owned, n);
    GoneReachesBack(st, d, j, h);
    KeptCount(s, st.retired + gone);
    forall x | x in gone
      ensures x in s
    {
      var i :| 0 <= i < j && st.owned[..j][i] == x;
      assert s[i] == x;
    }
    forall x | x in s
      ensures x !in st.retired
    {
      assert x in st.owned;
    }
    assert Lost(s, st.retired + gone) == gone;
  }

  lemma TargetsStep(ops: seq<PeerOp>)
    requires ops != [] && ops[0].Retire?
    ensures Targets(ops) == {ops[0].peer} + Targets(ops[1..])
  {
    forall q | q in Targets(ops)
      ensures q in {ops[0].peer} + Targets(ops[1..])
    {
      var i :| 0 <= i < |ops| && ops[i].Retire? && ops[i].peer == q;
      if i > 0 {
        assert ops[1..][i - 1] == ops[i];
      }
    }
    forall q | q in Targets(ops[1..])
      ensures q in Targets(ops)
    {
      var i :| 0 <= i < |ops[1..]| && ops[1..][i].Retire? && ops[1..][i].peer == q;
      assert ops[i + 1] == ops[1..][i];
    }
  }

  function Retired(st: Peers, more: set<nat>): Peers {
    st.(owned := Keep(st.owned, st.retired + more), members := Keep(st.owned, st.retired + more),
        retired := st.retired + more)
  }

  /** Retiring one closed peer that is, or was, in the collection. */
  lemma RetireOne(st: Peers, q: nat, h: Handlers)
    requires InStep(st) && q !in st.unclosed && (q in st.owned || q in st.retired)
    ensures RemoveOwnedPeer(st, q, h) == Retired(st, {q})
  {
    hide Keep, Distinct, Descends, Without;
    if q in st.owned {
      RetireClosedPeer(st, q, h);
      WithoutIsKeep(st.owned, q, st.retired);
    } else {
      assert st.retired + {q} == st.retired;
      KeepAll(st.owned, st.retired);
    }
  }

  /** A handler that only retires closed peers takes just them out. */
  lemma {:induction false} RetireMany(st: Peers, ops: seq<PeerOp>, h: Handlers)
    requires InStep(st)
    requires forall i :: 0 <= i < |ops| ==>
               ops[i].Retire? && ops[i].peer !in st.unclosed && (ops[i].peer in st.owned || ops[i].peer in st.retired)
    ensures RunHandler(st, ops, h) == Retired(st, Targets(ops))
    decreases |ops|
  {
    hide InStep, Keep, Targets, RemoveOwnedPeer;
    if ops == [] {
      assert Targets(ops) == {} by { NoTargets(ops); }
      assert st.retired + {} == st.retired;
      NoneGone(st);
    } else {
      var q := ops[0].peer;
      var st1 := Perform(st, ops[0], h);
      RetireOne(st, q, h);
      TargetsStep(ops);
      assert InStep(st1);
      forall i | 0 <= i < |ops[1..]|
        ensures ops[1..][i].peer in st1.owned || ops[1..][i].peer in st1.retired
      {
        assert ops[1..][i] == ops[i + 1];
        KeepMembers(st.owned, st.retired + {q});
      }
      RetireMany(st1, ops[1..], h);
      KeepTwice(st.owned, st.retired + {q}, st.retired + {q} + Targets(ops[1..]));
      assert st.retired + Targets(ops) == st.retired + {q} + Targets(ops[1..]);
    }
  }

  lemma NoTargets(ops: seq<PeerOp>)
    requires ops == []
    ensures Targets(ops) == {}
  {
  }

  lemma NoneGone(st: Peers)
    requires InStep(st)
    ensures Keep(st.owned, st.retired) == st.owned == st.members
  {
    hide Keep;
    KeepAll(st.owned, st.retired);
  }

  lemma NotGone(st: Peers, d: nat, j: nat, h: Handlers)
    requires Setting(st, d, h) && j < |st.owned|
    ensures st.owned[j] !in st.retired + Gone(st.owned, j, h)
  {
    hide RetireFront, Gone;
    GoneReachesBack(st, d, j, h);
    assert st.owned[j] in st.owned;
    assert st.owned[j] !in st.owned[..j];
  }

  /** Peer j is in the slot when its turn comes. */
  lemma InSlot(st: Peers, d: nat, j: nat, h: Handlers)
    requires Setting(st, d, h) && j < |st.owned|
    ensures var s := At(st, j, h); var slot := Slot(st, j, h);
            && slot < |s.owned| && s.owned[slot] == st.owned[j]
            && s.owned[..slot + 1] == Keep(st.owned[..j + 1], st.retired + Gone(st.owned, j, h))
  {
    hide Keep, Setting, Gone;
    var gone := st.retired + Gone(st.owned, j, h);
    var upTo := st.owned[..j + 1];
    NotGone(st, d, j, h);
    assert upTo[..j] == st.owned[..j] && upTo[j] == st.owned[j];
    KeepLast(upTo, gone);
    assert st.owned == upTo + st.owned[j + 1..];
    KeepAppend(upTo, st.owned[j + 1..], gone);
  }

  /** One turn takes the run from peer j to peer j + 1. */
  lemma TurnOf(st: Peers, d: nat, j: nat, h: Handlers)
    requires Setting(st, d, h) && j < |st.owned| && InStep(At(st, j, h))
    ensures var s := At(st, j, h); var peer := st.owned[j];
            && InStep(MarkClosed(s, peer)) && Close(s, peer, h) == At(st, j + 1, h) && InStep(At(st, j + 1, h))
  {
    hide Keep, RetireFront, RunHandler, Setting, InStep, At;
    var s := At(st, j, h);
    var peer := st.owned[j];
    MarkClosedDescends(s, peer);
    AtOpen(st, d, j, h);
    TargetsClosed(st, d, j, h);
    RetireMany(MarkClosed(s, peer), h(peer), h);
    AtNext(st, j, h);
  }

  /** The peer whose turn it is is open. */
  lemma AtOpen(st: Peers, d: nat, j: nat, h: Handlers)
    requires Setting(st, d, h) && j < |st.owned|
    ensures st.owned[j] in At(st, j, h).unclosed
  {
    hide Keep, RetireFront;
    assert st.owned[j] in st.owned;
  }

  /** Whom its handler retires is closed by then, and in the collection or retired. */
  lemma TargetsClosed(st: Peers, d: nat, j: nat, h: Handlers)
    requires Setting(st, d, h) && j < |st.owned|
    ensures var s := MarkClosed(At(st, j, h), st.owned[j]); var ops := h(st.owned[j]);
            forall i :: 0 <= i < |ops| ==>
              ops[i].Retire? && ops[i].peer !in s.unclosed && (ops[i].peer in s.owned || ops[i].peer in s.retired)
  {
    hide Keep, InStep, Gone;
    var gone := st.retired + Gone(st.owned, j, h);
    var ops := h(st.owned[j]);
    TargetsReachBack(st, d, j, h);
    KeepMembers(st.owned, gone);
    forall i | 0 <= i < |ops|
      ensures ops[i].peer in st.owned && (ops[i].peer == st.owned[j] || ops[i].peer in st.owned[..j])
    {
      assert ops[i].peer in Targets(ops);
      var k :| 0 <= k < j + 1 && st.owned[..j + 1][k] == ops[i].peer;
      if k < j {
        assert st.owned[..j][k] == ops[i].peer;
      }
    }
  }

  lemma AtNext(st: Peers, j: nat, h: Handlers)
    requires j < |st.owned| && st.owned[j] in At(st, j, h).unclosed
    ensures Retired(MarkClosed(At(st, j, h), st.owned[j]), Targets(h(st.owned[j]))) == At(st, j + 1, h)
  {
    hide Keep, Targets;
    var gone := st.retired + Gone(st.owned, j, h);
    var more := Targets(h(st.owned[j]));
    KeepTwice(st.owned, gone, gone + more);
    assert gone + more == st.retired + Gone(st.owned, j + 1, h);
    assert st.owned[..j] + [st.owned[j]] == st.owned[..j + 1];
    assert Elements(st.owned[..j + 1]) == Elements(st.owned[..j]) + {st.owned[j]};
    assert st.unclosed - Elements(st.owned[..j]) - {st.owned[j]} == st.unclosed - Elements(st.owned[..j + 1]);
  }

  /** Where the slot is after the turn of peer j: exactly behind the kept ones if its
      handler retires at most one more, and beyond them otherwise. */
  lemma SlotAfter(st: Peers, d: nat, j: nat, h: Handlers)
    requires Setting(st, d, h) && j < |st.owned| && InStep(At(st, j, h)) && InStep(At(st, j + 1, h))
    requires InStep(MarkClosed(At(st, j, h), st.owned[j])) && Close(At(st, j, h), st.owned[j], h) == At(st, j + 1, h)
    ensures var s := At(st, j, h); var slot := Slot(st, j, h); var n := |NewlyGone(st.owned, j, h)|;
            && slot < |s.owned| && s.owned[slot] == st.owned[j]
            && Next(s, slot, At(st, j + 1, h)) >= Slot(st, j + 1, h)
            && (Next(s, slot, At(st, j + 1, h)) == Slot(st, j + 1, h) <==> n <= 1)
  {
    hide Keep, RetireFront, Setting, InStep, At, Targets;
    var s, s1 := At(st, j, h), At(st, j + 1, h);
    var slot := Slot(st, j, h);
    InSlot(st, d, j, h);
    TurnDescends(s, slot, h);
    NextSlot(s, slot, s1);
    KeptOfPrefix(st, d, j, j, h);
    KeptOfPrefix(st, d, j + 1, j + 1, h);
    KeptAfter(st, j, h);
    GoneGrows(st.owned, j, h);
  }

  lemma KeptAfter(st: Peers, j: nat, h: Handlers)
    requires j < |st.owned| && Slot(st, j, h) < |At(st, j, h).owned|
    requires At(st, j, h).owned[..Slot(st, j, h) + 1] == Keep(st.owned[..j + 1], st.retired + Gone(st.owned, j, h))
    ensures |Kept(At(st, j, h), Slot(st, j, h), At(st, j + 1, h))| == Slot(st, j + 1, h)
  {
    hide Keep;
    KeepTwice(st.owned[..j + 1], st.retired + Gone(st.owned, j, h), st.retired + Gone(st.owned, j + 1, h));
  }

  lemma GoneGrows(owned: seq<nat>, j: nat, h: Handlers)
    requires j < |owned|
    ensures |Gone(owned, j + 1, h)| == |Gone(owned, j, h)| + |NewlyGone(owned, j, h)|
  {
    hide Targets;
    assert Gone(owned, j + 1, h) == Gone(owned, j, h) + NewlyGone(owned, j, h);
  }

  // ----- the exact condition -----------------------------------------------

  /** Up to peer j every handler retires at most one peer that none before it did. */
  ghost predicate OneAtATime(owned: seq<nat>, j: nat, h: Handlers)
    requires j <= |owned|
  {
    forall i :: 0 <= i < j ==> |NewlyGone(owned, i, h)| <= 1
  }

  lemma AtStart(st: Peers, d: nat, h: Handlers)
    requires Setting(st, d, h)
    ensures At(st, 0, h) == st && Slot(st, 0, h) == 0
  {
    hide RetireFront;
    NoneGone(st);
    assert st.retired + {} == st.retired;
    assert st.closes + [] == st.closes;
    assert st.owned[..0] == [];
    assert st.unclosed - Elements(st.owned[..0]) == st.unclosed;
  }

  /** As long as that holds, the run visits the peers in order. */
  lemma {:induction false} RunReaches(st: Peers, d: nat, j: nat, h: Handlers)
    requires Setting(st, d, h) && j <= |st.owned| && OneAtATime(st.owned, j, h)
    ensures InStep(st) && InStep(At(st, j, h)) && CloseFrom(st, 0, h) == CloseFrom(At(st, j, h), Slot(st, j, h), h)
  {
    hide InStep, Keep, RetireFront, Setting, At, Slot, CloseFrom, Next, NewlyGone;
    assert InStep(st) by { SettingInStep(st, d, h); }
    if j == 0 {
      AtStart(st, d, h);
    } else {
      RunReaches(st, d, j - 1, h);
      TurnOf(st, d, j - 1, h);
      SlotAfter(st, d, j - 1, h);
      TurnUnfolds(At(st, j - 1, h), Slot(st, j - 1, h), h);
    }
  }

  lemma SettingInStep(st: Peers, d: nat, h: Handlers)
    requires Setting(st, d, h)
    ensures InStep(st)
  {
  }

  /** Whoever is owned when peer j has its turn is kept from the list. */
  lemma AtCloses(st: Peers, d: nat, h: Handlers)
    requires Setting(st, d, h)
    ensures AllClosed(At(st, |st.owned|, h))
  {
    hide RetireFront;
    var n := |st.owned|;
    KeepMembers(st.owned, st.retired + Gone(st.owned, n, h));
    assert st.owned[..n] == st.owned;
  }

  /** The turn of the last peer ends the loop, whoever its handler retires. */
  lemma LastTurnEnds(st: Peers, d: nat, h: Handlers)
    requires Setting(st, d, h) && |st.owned| > 0 && OneAtATime(st.owned, |st.owned| - 1, h)
    ensures InStep(st) && CloseFrom(st, 0, h) == At(st, |st.owned|, h)
  {
    hide InStep, Keep, RetireFront, Setting, Close, NewlyGone, At, Slot;
    var n := |st.owned|;
    RunReaches(st, d, n - 1, h);
    TurnOf(st, d, n - 1, h);
    SlotAfter(st, d, n - 1, h);
    TurnUnfolds(At(st, n - 1, h), Slot(st, n - 1, h), h);
    hide Next, CloseFrom;
    var s1 := At(st, n, h);
    SlotAtEnd(st, h);
    LoopOver(s1, Next(At(st, n - 1, h), Slot(st, n - 1, h), s1), h);
  }

  lemma SlotAtEnd(st: Peers, h: Handlers)
    ensures |At(st, |st.owned|, h).owned| == Slot(st, |st.owned|, h)
  {
    hide Keep;
    assert st.owned[..|st.owned|] == st.owned;
  }

  lemma LoopOver(st: Peers, index: nat, h: Handlers)
    requires InStep(st) && index >= |st.owned|
    ensures CloseFrom(st, index, h) == st
  {
  }

  /** The first handler that retires two or more at once passes the peer after its own,
      which then stays open for good. */
  lemma NextIsPassed(st: Peers, d: nat, j: nat, h: Handlers)
    requires Setting(st, d, h) && j + 1 < |st.owned| && OneAtATime(st.owned, j, h)
    requires |NewlyGone(st.owned, j, h)| > 1
    ensures InStep(st) && !AllClosed(CloseFrom(st, 0, h))
  {
    hide InStep, Keep, RetireFront, Setting, Close, NewlyGone, CloseFrom, Next, At, Slot;
    RunReaches(st, d, j, h);
    TurnOf(st, d, j, h);
    SlotAfter(st, d, j, h);
    var s, s1 := At(st, j, h), At(st, j + 1, h);
    var next := Next(s, Slot(st, j, h), s1);
    TurnUnfolds(s, Slot(st, j, h), h);
    BehindTheKept(st, d, j, h);
    var q := st.owned[j + 1];
    assert Passed(s1, next, q);
    LaterAreConsiderate(st, d, j, h);
    ConsiderateIsOnlyOwn(s1, next, h, Elements(st.owned));
    PassedIsLeftOpen(s1, next, h, q);
  }

  /** After the turn of peer j the next one stands right behind the kept ones. */
  lemma BehindTheKept(st: Peers, d: nat, j: nat, h: Handlers)
    requires Setting(st, d, h) && j + 1 < |st.owned|
    ensures var s1 := At(st, j + 1, h); var slot := Slot(st, j + 1, h);
            && slot < |s1.owned| && s1.owned[slot] == st.owned[j + 1]
            && st.owned[j + 1] in s1.unclosed && s1.closing
  {
    hide Keep, InStep, RetireFront;
    InSlot(st, d, j + 1, h);
    AtOpen(st, d, j + 1, h);
  }

  /** A peer of the front retires itself at most. */
  lemma FrontRetiresOne(st: Peers, d: nat, j: nat, h: Handlers)
    requires Setting(st, d, h) && j < d
    ensures |NewlyGone(st.owned, j, h)| <= 1
  {
    hide InStep, Gone;
    var p := st.owned[j];
    assert st.owned[..d][j] == p;
    var gone := NewlyGone(st.owned, j, h);
    assert gone <= {p};
    SubsetSize(gone, {p});
  }

  /** Once the front is closed, all remaining handlers are considerate. */
  lemma LaterAreConsiderate(st: Peers, d: nat, j: nat, h: Handlers)
    requires Setting(st, d, h) && j < |st.owned| && |NewlyGone(st.owned, j, h)| > 1
    ensures AllConsiderate(h, At(st, j + 1, h).unclosed, Elements(st.owned))
    ensures Within(At(st, j + 1, h).owned, Elements(st.owned))
  {
    hide InStep, Keep, NewlyGone, Gone;
    if j < d {
      FrontRetiresOne(st, d, j, h);
    }
    KeepMembers(st.owned, st.retired + Gone(st.owned, j + 1, h));
    forall q | q in st.owned[..d]
      ensures q !in At(st, j + 1, h).unclosed
    {
      var i :| 0 <= i < d && st.owned[..d][i] == q;
      assert st.owned[..j + 1][i] == q;
    }
  }

  /** Two generations of open peers: handlers of the front retire at most their own
      peer, the others their own and peers of the front, and no handler does anything
      else.  close_owned_peers closes everyone exactly when each handler but the last
      peer's retires at most one peer that no handler before it retires. */
  lemma TwoGenerationsExactly(st: Peers, d: nat, h: Handlers)
    requires InStep(st) && !st.closing && d <= |st.owned| && RetireFront(st.owned, st.owned[..d], h)
    requires forall p :: p in st.owned ==> p in st.unclosed
    ensures ClosesEveryone(st, h) <==> st.owned == [] || OneAtATime(st.owned, |st.owned| - 1, h)
  {
    hide InStep, Keep, RetireFront, NewlyGone, CloseFrom, At, Slot;
    var s := st.(closing := true);
    assert Setting(s, d, h) by { SettingFor(st, d, h); }
    ClosesEveryoneIffLoop(st, h);
    if st.owned == [] {
      LoopOver(s, 0, h);
    } else if OneAtATime(st.owned, |st.owned| - 1, h) {
      LastTurnEnds(s, d, h);
      AtCloses(s, d, h);
    } else {
      FirstSurplus(st.owned, |st.owned| - 1, h);
      var j :| 0 <= j < |st.owned| - 1 && OneAtATime(st.owned, j, h) && |NewlyGone(st.owned, j, h)| > 1;
      NextIsPassed(s, d, j, h);
    }
  }

  lemma SettingFor(st: Peers, d: nat, h: Handlers)
    requires InStep(st) && d <= |st.owned| && RetireFront(st.owned, st.owned[..d], h)
    requires forall p :: p in st.owned ==> p in st.unclosed
    ensures InStep(st.(closing := true)) && Setting(st.(closing := true), d, h)
  {
    hide RetireFront;
  }

  /** A first handler that retires too many. */
  lemma {:induction false} FirstSurplus(owned: seq<nat>, n: nat, h: Handlers)
    requires n <= |owned| && !OneAtATime(owned, n, h)
    ensures exists j :: 0 <= j < n && OneAtATime(owned, j, h) && |NewlyGone(owned, j, h)| > 1
  {
    hide NewlyGone;
    if OneAtATime(owned, n - 1, h) {
      assert |NewlyGone(owned, n - 1, h)| > 1;
    } else {
      FirstSurplus(owned, n - 1, h);
    }
  }
}
