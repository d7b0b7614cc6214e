/** What closing every owned peer achieves while close handlers interfere: what a slot
    of the loop may step over, exactly when everyone is closed, and conditions on the
    handlers that can be read off before the call. */
module PeerClosing {
  import opened PeerCollections

  // ----- one turn ----------------------------------------------------------

  /** No peer before the slot is open. */
  ghost predicate ClosedBelow(st: Peers, index: nat) {
    forall j :: 0 <= j < index && j < |st.owned| ==> st.owned[j] !in st.unclosed
  }

  /** The slot after a turn. */
  function Next(st: Peers, index: nat, st1: Peers): nat
    requires index < |st.owned|
  {
    if index < |st1.owned| && st1.owned[index] == st.owned[index] then index + 1 else index
  }

  /** What is left of the peers at or before the slot. */
  function Kept(st: Peers, index: nat, st1: Peers): (kept: seq<nat>)
    requires index < |st.owned|
  {
    Keep(st.owned[..index + 1], st1.retired)
  }

  /** The peers the next slot passes without their turn: those that moved into the
      places of all but one of the peers retired at or before the slot. */
  function SteppedOver(st: Peers, index: nat, st1: Peers): (over: seq<nat>)
    requires index < |st.owned|
    ensures forall p :: p in over ==> p in st1.owned
  {
    var kept := |Kept(st, index, st1)|;
    var next := Next(st, index, st1);
    if kept <= next <= |st1.owned| then st1.owned[kept..next]
    else if kept <= |st1.owned| < next then st1.owned[kept..] else []
  }

  /** How the slot moves: without a retirement at or before it the peer just closed
      joins the finished ones; otherwise the slot stays, however many went. */
  lemma NextSlot(st: Peers, index: nat, st1: Peers)
    requires InStep(st) && InStep(st1) && index < |st.owned|
    requires Descends(MarkClosed(st, st.owned[index]), st1)
    ensures var kept := Kept(st, index, st1);
            && kept <= st1.owned
            && (forall p :: p in kept ==> p in st.owned[..index + 1])
            && |kept| <= Next(st, index, st1)
            && (|kept| == index + 1 <==> Next(st, index, st1) == index + 1)
  {
    hide Keep, Distinct;
    var seen := st.owned[..index + 1];
    var kept := Kept(st, index, st1);
    assert st.owned == seen + st.owned[index + 1..];
    KeepAppend(seen, st.owned[index + 1..], st1.retired);
    KeepMembers(seen, st1.retired);
    assert kept <= st1.owned;
    if |kept| == index + 1 {
      KeepFull(seen, st1.retired);
      assert st1.owned[index] == kept[index] == seen[index];
    } else if index < |st1.owned| && st1.owned[index] == st.owned[index] {
      SlotKept(st, index, st1);
    }
  }

  /** A peer still in its slot means that nobody before it has gone. */
  lemma SlotKept(st: Peers, index: nat, st1: Peers)
    requires Distinct(st1.owned) && InStep(st1) && index < |st.owned| && index < |st1.owned|
    requires Kept(st, index, st1) <= st1.owned && st1.owned[index] == st.owned[index]
    ensures |Kept(st, index, st1)| >= index + 1
  {
    hide Keep;
    var seen := st.owned[..index + 1];
    KeepMembers(seen, st1.retired);
    assert st1.owned[index] in st1.owned;
    assert seen[index] in seen;
    assert st.owned[index] in Kept(st, index, st1);
    var i :| 0 <= i < |Kept(st, index, st1)| && Kept(st, index, st1)[i] == st.owned[index];
    assert st1.owned[i] == st1.owned[index];
  }

  /** A turn keeps everyone before the slot closed exactly when it steps over no open
      peer. */
  lemma TurnKeepsPrefix(st: Peers, index: nat, st1: Peers)
    requires InStep(st) && InStep(st1) && index < |st.owned| && ClosedBelow(st, index)
    requires Descends(MarkClosed(st, st.owned[index]), st1)
    ensures ClosedBelow(st1, Next(st, index, st1)) <==>
              forall p :: p in SteppedOver(st, index, st1) ==> p !in st1.unclosed
  {
    hide Keep, Kept, InStep;
    NextSlot(st, index, st1);
    var kept := Kept(st, index, st1);
    var next := Next(st, index, st1);
    var over := SteppedOver(st, index, st1);
    assert forall j :: 0 <= j < |kept| ==> st1.owned[j] == kept[j] && kept[j] in kept;
    forall p | p in st.owned[..index + 1]
      ensures p !in st1.unclosed
    {
      var j :| 0 <= j < index + 1 && st.owned[j] == p;
    }
    assert forall j :: 0 <= j < |kept| ==> st1.owned[j] !in st1.unclosed;
    assert forall j :: |kept| <= j < next && j < |st1.owned| ==> st1.owned[j] == over[j - |kept|];
    if ClosedBelow(st1, next) {
      forall p | p in over
        ensures p !in st1.unclosed
      {
        var i :| 0 <= i < |over| && over[i] == p;
        assert st1.owned[|kept| + i] == p;
      }
    }
  }

  // ----- the whole loop ----------------------------------------------------

  /** No turn of the loop steps over an open peer. */
  ghost predicate NoneSteppedOver(st: Peers, index: nat, h: Handlers)
    requires InStep(st)
    decreases |st.unclosed|, |st.owned| - index
  {
    index < |st.owned| ==>
      var st1 := Close(st, st.owned[index], h);
      TurnDescends(st, index, h);
      && (forall p :: p in SteppedOver(st, index, st1) ==> p !in st1.unclosed)
      && NoneSteppedOver(st1, Next(st, index, st1), h)
  }

  /** No handler closes another peer that is open: each turn closes its own at most. */
  ghost predicate OnlyOwn(st: Peers, index: nat, h: Handlers)
    requires InStep(st)
    decreases |st.unclosed|, |st.owned| - index
  {
    index < |st.owned| ==>
      var st1 := Close(st, st.owned[index], h);
      TurnDescends(st, index, h);
      && st1.unclosed == st.unclosed - {st.owned[index]}
      && OnlyOwn(st1, Next(st, index, st1), h)
  }

  /** A turn is sound, and makes progress: fewer open peers, or only the slot moves. */
  lemma TurnDescends(st: Peers, index: nat, h: Handlers)
    requires InStep(st) && index < |st.owned|
    ensures InStep(MarkClosed(st, st.owned[index]))
    ensures var st1 := Close(st, st.owned[index], h);
            && InStep(st1) && Descends(MarkClosed(st, st.owned[index]), st1) && st1.closing == st.closing
            && (|st1.unclosed| < |st.unclosed| || (st1 == st && Next(st, index, st1) == index + 1))
  {
    hide Keep, InStep, RunHandler, Next;
    var peer := st.owned[index];
    MarkClosedDescends(st, peer);
    ClosedUnchanged(st, peer);
    SubsetSizes(st, peer, Close(st, peer, h));
    if peer !in st.unclosed {
      SlotAdvances(st, index);
    }
  }

  lemma SlotAdvances(st: Peers, index: nat)
    requires index < |st.owned|
    ensures Next(st, index, st) == index + 1
  {
  }

  lemma TurnUnfolds(st: Peers, index: nat, h: Handlers)
    requires InStep(st) && index < |st.owned|
    ensures InStep(MarkClosed(st, st.owned[index])) && InStep(Close(st, st.owned[index], h))
    ensures var st1 := Close(st, st.owned[index], h);
            CloseFrom(st, index, h) == CloseFrom(st1, Next(st, index, st1), h)
  {
    hide Keep, Distinct, Descends, InStep;
    MarkClosedDescends(st, st.owned[index]);
  }

  /** All the peers a state owns are closed. */
  ghost predicate AllClosed(st: Peers) {
    forall p :: p in st.owned ==> p !in st.unclosed
  }

  lemma {:induction false} NoneSteppedOverClosesAll(st: Peers, index: nat, h: Handlers)
    requires InStep(st) && ClosedBelow(st, index) && NoneSteppedOver(st, index, h)
    ensures AllClosed(CloseFrom(st, index, h))
    decreases |st.unclosed|, |st.owned| - index
  {
    hide InStep, Descends, Keep, SteppedOver;
    if index < |st.owned| {
      TurnDescends(st, index, h);
      var st1 := Close(st, st.owned[index], h);
      TurnUnfolds(st, index, h);
      TurnKeepsPrefix(st, index, st1);
      hide CloseFrom, ClosedBelow;
      NoneSteppedOverClosesAll(st1, Next(st, index, st1), h);
    }
  }

  /** An open peer that the slot has passed. */
  ghost predicate Passed(st: Peers, index: nat, q: nat) {
    q in st.unclosed && exists i :: 0 <= i < index && i < |st.owned| && st.owned[i] == q
  }

  /** It keeps its place before the slot for as long as it is open. */
  lemma StaysPassed(st: Peers, index: nat, st1: Peers, q: nat)
    requires InStep(st) && InStep(st1) && index < |st.owned|
    requires Descends(MarkClosed(st, st.owned[index]), st1)
    requires Passed(st, index, q) && q in st1.unclosed
    ensures Passed(st1, Next(st, index, st1), q)
  {
    hide Keep, Kept, Next;
    NextSlot(st, index, st1);
    var seen := st.owned[..index + 1];
    var j :| 0 <= j < index && j < |st.owned| && st.owned[j] == q;
    assert seen[j] == q;
    KeepMembers(seen, st1.retired);
    var kept := Kept(st, index, st1);
    assert q in kept by { KeptMember(st, index, st1, q); }
    var i :| 0 <= i < |kept| && kept[i] == q;
    assert st1.owned[i] == q;
  }

  lemma KeptMember(st: Peers, index: nat, st1: Peers, q: nat)
    requires index < |st.owned|
    ensures q in Kept(st, index, st1) <==> q in st.owned[..index + 1] && q !in st1.retired
  {
    hide Keep;
    KeepMembers(st.owned[..index + 1], st1.retired);
  }

  lemma {:induction false} PassedIsLeftOpen(st: Peers, index: nat, h: Handlers, q: nat)
    requires InStep(st) && OnlyOwn(st, index, h) && Passed(st, index, q)
    ensures var r := CloseFrom(st, index, h); q in r.owned && q in r.unclosed
    decreases |st.unclosed|, |st.owned| - index
  {
    hide Descends, Keep, Next;
    if index < |st.owned| {
      TurnDescends(st, index, h);
      var st1 := Close(st, st.owned[index], h);
      TurnUnfolds(st, index, h);
      hide CloseFrom;
      StaysPassed(st, index, st1, q);
      PassedIsLeftOpen(st1, Next(st, index, st1), h, q);
    }
  }

  /** With handlers that close no other open peer, the loop closes everyone exactly when
      no turn steps over an open peer. */
  lemma {:induction false} ClosesAllIffNoneSteppedOver(st: Peers, index: nat, h: Handlers)
    requires InStep(st) && ClosedBelow(st, index) && OnlyOwn(st, index, h)
    ensures AllClosed(CloseFrom(st, index, h)) <==> NoneSteppedOver(st, index, h)
    decreases |st.unclosed|, |st.owned| - index
  {
    hide InStep, Descends, Keep, SteppedOver, Next;
    if index < |st.owned| {
      TurnDescends(st, index, h);
      var st1 := Close(st, st.owned[index], h);
      var next := Next(st, index, st1);
      TurnUnfolds(st, index, h);
      TurnKeepsPrefix(st, index, st1);
      hide CloseFrom;
      if ClosedBelow(st1, next) {
        ClosesAllIffNoneSteppedOver(st1, next, h);
      } else {
        var j :| 0 <= j < next && j < |st1.owned| && st1.owned[j] in st1.unclosed;
        PassedIsLeftOpen(st1, next, h, st1.owned[j]);
      }
    }
  }

  /** A closing that runs to its end leaves no peer open. */
  ghost predicate ClosesEveryone(st: Peers, h: Handlers)
    requires InStep(st)
  {
    var r := CloseOwned(st, h);
    AllClosed(r) && forall p :: p in st.owned ==> p !in r.unclosed
  }

  lemma SurvivesOrRetired(st: Peers, r: Peers, p: nat)
    requires Descends(st, r) && p in st.owned
    ensures p in r.owned || p in r.retired
  {
    hide Keep;
    KeepMembers(st.owned, r.retired);
    var kept := Keep(st.owned, r.retired);
    if p !in r.retired {
      var i :| 0 <= i < |kept| && kept[i] == p;
      assert r.owned[i] == p;
    }
  }

  /** Everyone owned afterwards is closed exactly if everyone owned before is, too. */
  lemma ClosesEveryoneIffLoop(st: Peers, h: Handlers)
    requires InStep(st) && !st.closing
    ensures ClosesEveryone(st, h) <==> AllClosed(CloseFrom(st.(closing := true), 0, h))
  {
    hide Keep, Descends, Distinct, CloseFrom;
    var c := CloseFrom(st.(closing := true), 0, h);
    var r := CloseOwned(st, h);
    assert r.owned == c.owned && r.unclosed == c.unclosed && r.retired == c.retired;
    if AllClosed(c) {
      forall p | p in st.owned
        ensures p !in r.unclosed
      {
        SurvivesOrRetired(st, r, p);
      }
    }
  }

  /** close_owned_peers leaves nobody open, exactly when no turn of its loop steps over
      an open peer, provided handlers close no other open peer. */
  lemma CloseOwnedClosesAllIff(st: Peers, h: Handlers)
    requires InStep(st) && !st.closing && OnlyOwn(st.(closing := true), 0, h)
    ensures ClosesEveryone(st, h) <==> NoneSteppedOver(st.(closing := true), 0, h)
  {
    hide Keep, Descends, Distinct, CloseFrom, NoneSteppedOver, OnlyOwn;
    ClosesAllIffNoneSteppedOver(st.(closing := true), 0, h);
    ClosesEveryoneIffLoop(st, h);
  }

  // ----- gentle handlers ---------------------------------------------------

  /** At each turn of the loop at most one of the peers at or before the current
      slot has been retired by the handlers that ran; later ones do not matter. */
  ghost predicate Gentle(st: Peers, index: nat, h: Handlers)
    requires InStep(st)
    decreases |st.unclosed|, |st.owned| - index
  {
    index < |st.owned| ==>
      var st1 := Close(st, st.owned[index], h);
      TurnDescends(st, index, h);
      && |Kept(st, index, st1)| >= index
      && Gentle(st1, Next(st, index, st1), h)
  }

  lemma {:induction false} GentleStepsOverNone(st: Peers, index: nat, h: Handlers)
    requires InStep(st) && Gentle(st, index, h)
    ensures NoneSteppedOver(st, index, h)
    decreases |st.unclosed|, |st.owned| - index
  {
    hide Keep, Kept, Descends, Distinct;
    if index < |st.owned| {
      TurnDescends(st, index, h);
      var st1 := Close(st, st.owned[index], h);
      NextSlot(st, index, st1);
      assert SteppedOver(st, index, st1) == [];
      GentleStepsOverNone(st1, Next(st, index, st1), h);
    }
  }

  /** close_owned_peers, not reentered and with gentle handlers, whatever else they do:
      every peer owned before, and every peer owned after, is closed. */
  lemma CloseOwnedClosesAll(st: Peers, h: Handlers)
    requires InStep(st) && !st.closing && Gentle(st.(closing := true), 0, h)
    ensures ClosesEveryone(st, h)
  {
    hide Keep, Descends, Distinct, CloseFrom, NoneSteppedOver, Gentle;
    GentleStepsOverNone(st.(closing := true), 0, h);
    NoneSteppedOverClosesAll(st.(closing := true), 0, h);
    ClosesEveryoneIffLoop(st, h);
  }

  // ----- handlers that retire only their own peer --------------------------

  /** What can be read off the handlers: nobody retires somebody else.  Closing,
      accepting and closing everyone are free. */
  predicate RetiresOnly(ops: seq<PeerOp>, p: nat) {
    forall i :: 0 <= i < |ops| && ops[i].Retire? ==> ops[i].peer == p
  }

  ghost predicate RetireThemselves(h: Handlers) {
    forall p :: RetiresOnly(h(p), p)
  }

  /** Whoever has been retired since was open then, or is p. */
  ghost predicate RetiredWereOpen(st: Peers, r: Peers, p: nat) {
    forall q :: q in r.retired ==> q in st.retired || q in st.unclosed || q == p
  }

  lemma {:induction false} CloseRetiresOpen(st: Peers, peer: nat, h: Handlers)
    requires InStep(MarkClosed(st, peer)) && st.closing && RetireThemselves(h)
    ensures forall q :: q in Close(st, peer, h).retired ==> q in st.retired || q in st.unclosed
    decreases |st.unclosed|, 0, 0
  {
    hide InStep, Descends, Keep, Distinct, RunHandler;
    Smaller(st.unclosed, peer);
    if peer in st.unclosed {
      HandlerRetiresOpen(MarkClosed(st, peer), h(peer), peer, h);
    }
  }

  lemma {:induction false} HandlerRetiresOpen(st: Peers, ops: seq<PeerOp>, p: nat, h: Handlers)
    requires InStep(st) && st.closing && RetireThemselves(h) && RetiresOnly(ops, p)
    ensures RetiredWereOpen(st, RunHandler(st, ops, h), p)
    decreases |st.unclosed|, 4, |ops|
  {
    hide InStep, Keep, Distinct, Perform;
    if ops != [] {
      var st1 := Perform(st, ops[0], h);
      OperationRetiresOpen(st, ops[0], p, h);
      SubsetSize(st1.unclosed, st.unclosed);
      assert RetiresOnly(ops[1..], p) by {
        assert forall i :: 0 <= i < |ops[1..]| ==> ops[1..][i] == ops[i + 1];
      }
      HandlerRetiresOpen(st1, ops[1..], p, h);
    }
  }

  lemma {:induction false} OperationRetiresOpen(st: Peers, op: PeerOp, p: nat, h: Handlers)
    requires InStep(st) && st.closing && RetireThemselves(h) && (op.Retire? ==> op.peer == p)
    ensures RetiredWereOpen(st, Perform(st, op, h), p)
    decreases |st.unclosed|, 3, 0
  {
    hide Keep, Distinct, Close;
    match op
    case Retire(q) =>
      if q in st.owned {
        DetachCloseDescends(st, q);
        CloseRetiresOpen(Detach(st, q), q, h);
      }
    case Accept(_) =>
    case ClosePeer(q) =>
      MarkClosedDescends(st, q);
      CloseRetiresOpen(st, q, h);
    case CloseAll =>
  }

  lemma {:induction false} RetireThemselvesIsGentle(st: Peers, index: nat, h: Handlers)
    requires InStep(st) && st.closing && ClosedBelow(st, index) && RetireThemselves(h)
    ensures Gentle(st, index, h)
    decreases |st.unclosed|, |st.owned| - index
  {
    hide Keep, Distinct, Descends, RetireThemselves, SteppedOver;
    if index < |st.owned| {
      TurnDescends(st, index, h);
      var st1 := Close(st, st.owned[index], h);
      CloseRetiresOpen(st, st.owned[index], h);
      FinishedStay(st, index, st1);
      NextSlot(st, index, st1);
      assert SteppedOver(st, index, st1) == [] by { StepsOverNobody(st, index, st1); }
      TurnKeepsPrefix(st, index, st1);
      RetireThemselvesIsGentle(st1, Next(st, index, st1), h);
    }
  }

  lemma StepsOverNobody(st: Peers, index: nat, st1: Peers)
    requires index < |st.owned|
    requires |Kept(st, index, st1)| >= index && |Kept(st, index, st1)| <= Next(st, index, st1)
    requires |Kept(st, index, st1)| == index + 1 <==> Next(st, index, st1) == index + 1
    ensures SteppedOver(st, index, st1) == []
  {
    hide Kept;
  }

  /** If nobody closed before the turn has been retired in it, everyone before the slot
      is kept. */
  lemma FinishedStay(st: Peers, index: nat, st1: Peers)
    requires InStep(st) && index < |st.owned| && ClosedBelow(st, index)
    requires forall q :: q in st1.retired ==> q in st.retired || q in st.unclosed
    ensures |Kept(st, index, st1)| >= index
  {
    hide Distinct, Keep;
    var before := st.owned[..index];
    assert forall p :: p in before ==> p in st.owned && p !in st.unclosed;
    assert forall p :: p in before ==> p !in st1.retired;
    KeepAll(before, st1.retired);
    assert st.owned[..index + 1][..index] == before;
    KeepLast(st.owned[..index + 1], st1.retired);
  }

  /** A condition on the handlers alone: if none of them retires anyone but its own
      peer, close_owned_peers closes everyone. */
  lemma RetireThemselvesClosesAll(st: Peers, h: Handlers)
    requires InStep(st) && !st.closing && RetireThemselves(h)
    ensures ClosesEveryone(st, h)
  {
    hide Keep, Descends, Distinct, CloseFrom, Gentle, RetireThemselves;
    RetireThemselvesIsGentle(st.(closing := true), 0, h);
    CloseOwnedClosesAll(st, h);
  }

  // ----- handlers that touch one peer at most ------------------------------

  predicate Touches(op: PeerOp) {
    op.Retire? || op.ClosePeer?
  }

  /** At most one of the operations retires or closes a peer, whichever it is.
      Accepting and closing everyone are free. */
  predicate TouchesOne(ops: seq<PeerOp>) {
    forall i, j :: 0 <= i < j < |ops| ==> !(Touches(ops[i]) && Touches(ops[j]))
  }

  ghost predicate AllTouchOne(h: Handlers) {
    forall p :: TouchesOne(h(p))
  }

  /** Whoever has been retired since was open then, with the exception of one: a chain of
      handlers ends with the first peer it finds closed. */
  ghost predicate OneException(st: Peers, r: Peers, w: nat) {
    forall q :: q in r.retired ==> q in st.retired || q in st.unclosed || q == w
  }

  lemma {:induction false} CloseRetiresOne(st: Peers, peer: nat, h: Handlers) returns (w: nat)
    requires InStep(MarkClosed(st, peer)) && st.closing && AllTouchOne(h)
    ensures OneException(MarkClosed(st, peer), Close(st, peer, h), w)
    decreases |st.unclosed|, 0, 0
  {
    hide InStep, Descends, Keep, Distinct, RunHandler, TouchesOne;
    Smaller(st.unclosed, peer);
    w := 0;
    if peer in st.unclosed {
      w := HandlerRetiresOne(MarkClosed(st, peer), h(peer), h);
    }
  }

  lemma {:induction false} HandlerRetiresOne(st: Peers, ops: seq<PeerOp>, h: Handlers) returns (w: nat)
    requires InStep(st) && st.closing && AllTouchOne(h) && TouchesOne(ops)
    ensures OneException(st, RunHandler(st, ops, h), w)
    decreases |st.unclosed|, 4, |ops|
  {
    hide InStep, Keep, Distinct, Perform, AllTouchOne;
    w := 0;
    if ops != [] {
      var st1 := Perform(st, ops[0], h);
      SubsetSize(st1.unclosed, st.unclosed);
      var rest := ops[1..];
      assert forall i :: 0 <= i < |rest| ==> rest[i] == ops[i + 1];
      assert TouchesOne(rest);
      if Touches(ops[0]) {
        w := OperationRetiresOne(st, ops[0], h);
        UntouchedKeeps(st1, rest, h);
      } else {
        UntouchedOperation(st, ops[0], h);
        w := HandlerRetiresOne(st1, rest, h);
      }
    }
  }

  lemma UntouchedOperation(st: Peers, op: PeerOp, h: Handlers)
    requires InStep(st) && st.closing && !Touches(op)
    ensures var r := Perform(st, op, h); r.retired == st.retired && r.unclosed == st.unclosed
  {
    hide InStep, Keep, Distinct;
  }

  lemma {:induction false} UntouchedKeeps(st: Peers, ops: seq<PeerOp>, h: Handlers)
    requires InStep(st) && st.closing && forall i :: 0 <= i < |ops| ==> !Touches(ops[i])
    ensures RunHandler(st, ops, h).retired == st.retired
    decreases |ops|
  {
    hide InStep, Keep, Distinct, Perform;
    if ops != [] {
      UntouchedOperation(st, ops[0], h);
      assert forall i :: 0 <= i < |ops[1..]| ==> ops[1..][i] == ops[i + 1];
      UntouchedKeeps(Perform(st, ops[0], h), ops[1..], h);
    }
  }

  lemma {:induction false} OperationRetiresOne(st: Peers, op: PeerOp, h: Handlers) returns (w: nat)
    requires InStep(st) && st.closing && AllTouchOne(h) && Touches(op)
    ensures OneException(st, Perform(st, op, h), w)
    decreases |st.unclosed|, 3, 0
  {
    hide InStep, Keep, Distinct, Close, AllTouchOne;
    w := op.peer;
    if op.peer in st.owned {
      if op.Retire? {
        DetachCloseDescends(st, op.peer);
        ClosedUnchanged(Detach(st, op.peer), op.peer);
        if op.peer in st.unclosed {
          w := CloseRetiresOne(Detach(st, op.peer), op.peer, h);
        } else {
          RetireClosedPeer(st, op.peer, h);
        }
      } else {
        MarkClosedDescends(st, op.peer);
        w := CloseRetiresOne(st, op.peer, h);
      }
    }
  }

  /** If all but one of those retired in a turn were open after its peer was closed, at
      most one at or before the slot is missing. */
  lemma OneMissing(st: Peers, index: nat, st1: Peers, w: nat)
    requires InStep(st) && index < |st.owned| && ClosedBelow(st, index)
    requires OneException(MarkClosed(st, st.owned[index]), st1, w)
    ensures |Kept(st, index, st1)| >= index
  {
    var seen := st.owned[..index + 1];
    assert forall i, j :: 0 <= i < j < |seen| ==> seen[i] != seen[j];
    forall p | p in seen && p in st1.retired
      ensures p == w
    {
      var i :| 0 <= i < |seen| && seen[i] == p;
      assert st.owned[i] == p;
    }
    hide Keep, InStep, ClosedBelow, Distinct;
    AllButOne(seen, st1.retired, w);
  }

  lemma {:induction false} AllButOne(s: seq<nat>, gone: set<nat>, w: nat)
    requires forall i, j :: 0 <= i < j < |s| ==> s[i] != s[j]
    requires forall p :: p in s && p in gone ==> p == w
    ensures |Keep(s, gone)| + 1 >= |s|
  {
    if s != [] {
      var n := |s| - 1;
      KeepLast(s, gone);
      hide Keep;
      if s[n] in gone {
        assert forall i :: 0 <= i < n ==> s[i] in s && s[i] != s[n];
        KeepAll(s[..n], gone);
      } else {
        AllButOne(s[..n], gone, w);
      }
    }
  }

  lemma {:induction false} TouchOneIsGentle(st: Peers, index: nat, h: Handlers)
    requires InStep(st) && st.closing && ClosedBelow(st, index) && AllTouchOne(h)
    ensures Gentle(st, index, h)
    decreases |st.unclosed|, |st.owned| - index
  {
    hide Keep, Distinct, Descends, AllTouchOne, SteppedOver, OneException;
    if index < |st.owned| {
      TurnDescends(st, index, h);
      var st1 := Close(st, st.owned[index], h);
      var w := CloseRetiresOne(st, st.owned[index], h);
      OneMissing(st, index, st1, w);
      NextSlot(st, index, st1);
      assert SteppedOver(st, index, st1) == [] by { StepsOverNobody(st, index, st1); }
      TurnKeepsPrefix(st, index, st1);
      TouchOneIsGentle(st1, Next(st, index, st1), h);
    }
  }

  /** Another condition on the handlers alone: if each of them retires or closes at most
      one peer, of whatever kind, close_owned_peers closes everyone. */
  lemma TouchOneClosesAll(st: Peers, h: Handlers)
    requires InStep(st) && !st.closing && AllTouchOne(h)
    ensures ClosesEveryone(st, h)
  {
    hide Keep, Descends, Distinct, CloseFrom, Gentle, AllTouchOne;
    TouchOneIsGentle(st.(closing := true), 0, h);
    CloseOwnedClosesAll(st, h);
  }

  // ----- why the handlers have to be gentle --------------------------------

  lemma IdleTurn(st: Peers, index: nat, h: Handlers)
    requires InStep(st) && index < |st.owned| && h(st.owned[index]) == []
    ensures InStep(MarkClosed(st, st.owned[index]))
    ensures CloseFrom(st, index, h) == CloseFrom(MarkClosed(st, st.owned[index]), index + 1, h)
  {
    hide Keep, Distinct, Descends;
    var peer := st.owned[index];
    MarkClosedDescends(st, peer);
    assert Close(st, peer, h) == MarkClosed(st, peer);
  }

  lemma RetireClosedPeer(st: Peers, peer: nat, h: Handlers)
    requires InStep(st) && peer in st.owned && peer !in st.unclosed
    ensures RemoveOwnedPeer(st, peer, h) == Detach(st, peer)
  {
    hide Keep, Distinct, Descends, Without;
    DetachCloseDescends(st, peer);
    ClosedUnchanged(Detach(st, peer), peer);
  }

  lemma RetireTwo(st: Peers, a: nat, b: nat, h: Handlers)
    requires InStep(st) && InStep(Detach(st, a)) && a in st.owned && b in Detach(st, a).owned
    requires a !in st.unclosed && b !in st.unclosed
    ensures RunHandler(st, [Retire(a), Retire(b)], h) == Detach(Detach(st, a), b)
  {
    hide Keep, Distinct, Descends, Without;
    RetireClosedPeer(st, a, h);
    RetireClosedPeer(Detach(st, a), b, h);
    var ops := [Retire(a), Retire(b)];
    assert ops[1..] == [Retire(b)];
    assert ops[1..][1..] == [];
    assert RunHandler(Detach(st, a), ops[1..], h) == RunHandler(Detach(Detach(st, a), b), [], h);
  }

  lemma FirstTwoGone()
    ensures Without([0, 1, 2, 3], 0) == [1, 2, 3]
    ensures Without([1, 2, 3], 1) == [2, 3]
  {
    assert Position([0, 1, 2, 3], 0) == 0;
    assert Position([1, 2, 3], 1) == 0;
  }

  lemma ThirdTurn(st: Peers, h: Handlers)
    requires InStep(st) && st.owned == [0, 1, 2, 3] && 0 !in st.unclosed && 1 !in st.unclosed && 2 in st.unclosed
    requires h(2) == [Retire(0), Retire(1)]
    ensures var s3 := MarkClosed(st, 2);
            Close(st, 2, h) == Detach(Detach(s3, 0), 1) && Detach(Detach(s3, 0), 1).owned == [2, 3]
  {
    hide Keep, Descends, Without, RunHandler;
    FirstTwoGone();
    MarkClosedDescends(st, 2);
    var s3 := MarkClosed(st, 2);
    assert InStep(Detach(s3, 0));
    RetireTwo(s3, 0, 1, h);
  }

  lemma LastTurn(st: Peers, st1: Peers, h: Handlers)
    requires InStep(st) && InStep(MarkClosed(st, 2)) && |st.owned| == 4 && st.owned[2] == 2
    requires Close(st, 2, h) == st1 && st1.owned == [2, 3]
    ensures CloseFrom(st, 2, h) == st1
  {
    hide Keep, Distinct, Close;
  }

  /** Two retirements at or before the slot make the loop step over an open peer:
      of four peers the third one's handler retires the first two, and the fourth
      is still open when the loop is done. */
  lemma DoubleRetirementSkips(h: Handlers)
    requires h(0) == [] && h(1) == [] && h(2) == [Retire(0), Retire(1)]
    ensures var st := Peers([0, 1, 2, 3], [0, 1, 2, 3], true, {0, 1, 2, 3}, {}, []);
            InStep(st) && 3 in CloseFrom(st, 0, h).owned && 3 in CloseFrom(st, 0, h).unclosed
  {
    hide Keep, Descends, CloseFrom, Close, Without;
    var st := Peers([0, 1, 2, 3], [0, 1, 2, 3], true, {0, 1, 2, 3}, {}, []);
    assert InStep(st);
    FirstTwoTurns(st, h);
    var s2 := MarkClosed(MarkClosed(st, 0), 1);
    hide InStep;
    MarkClosedDescends(s2, 2);
    ThirdTurn(s2, h);
    LastTurn(s2, Detach(Detach(MarkClosed(s2, 2), 0), 1), h);
  }

  lemma FirstTwoTurns(st: Peers, h: Handlers)
    requires InStep(st) && st.owned == [0, 1, 2, 3] && h(0) == [] && h(1) == []
    ensures var s2 := MarkClosed(MarkClosed(st, 0), 1);
            InStep(s2) && CloseFrom(st, 0, h) == CloseFrom(s2, 2, h)
  {
    hide InStep, CloseFrom, Close, Keep, Distinct, MarkClosed;
    IdleTurn(st, 0, h);
    MarkedIs(st, 0);
    IdleTurn(MarkClosed(st, 0), 1, h);
  }

  // ----- each call on its own ----------------------------------------------

  /** A peer joins at the end of both lists exactly if it is open and not owned yet; nobody
      else is touched. */
  lemma AddPeerAnswer(st: Peers, peer: nat)
    requires InStep(st)
    ensures var r := AddPeer(st, peer);
            && r.owned == r.members
            && r.owned == st.owned + (if peer in st.unclosed && peer !in st.owned then [peer] else [])
            && r == st.(owned := r.owned, members := r.members)
  {
  }

  /** While a closing is under way another one does nothing. */
  lemma ReentrantClosing(st: Peers, h: Handlers)
    requires InStep(st) && st.closing
    ensures Perform(st, CloseAll, h) == st
  {
    hide CloseFrom, Close, Descends;
  }

  ghost predicate NoHandlers(h: Handlers) {
    forall p :: h(p) == []
  }

  lemma IdleClose(st: Peers, peer: nat, h: Handlers)
    requires InStep(MarkClosed(st, peer)) && NoHandlers(h)
    ensures Close(st, peer, h) == MarkClosed(st, peer)
  {
    hide Descends, InStep;
  }

  /** Retiring an owned peer takes exactly it out of both lists, the others staying in
      order, and closes it. */
  lemma RemoveAlone(st: Peers, peer: nat, h: Handlers)
    requires InStep(st) && NoHandlers(h)
    ensures var r := RemoveOwnedPeer(st, peer, h);
            && r.owned == r.members == Keep(st.owned, {peer})
            && r.closing == st.closing
            && (peer in st.owned ==> r.retired == st.retired + {peer} && r.unclosed == st.unclosed - {peer})
            && (peer !in st.owned ==> r == st)
  {
    hide Distinct, Descends, Keep, Close;
    if peer in st.owned {
      DetachCloseDescends(st, peer);
      IdleClose(Detach(st, peer), peer, h);
      WithoutIsKeep(st.owned, peer, {});
      assert {} + {peer} == {peer};
    } else {
      KeepAll(st.owned, {peer});
    }
  }

  /** The elements of s from index on that are in the set, in order. */
  function OpenFrom(s: seq<nat>, open: set<nat>, index: nat): seq<nat>
    decreases |s| - index
  {
    if index >= |s| then [] else (if s[index] in open then [s[index]] else []) + OpenFrom(s, open, index + 1)
  }

  lemma {:induction false} OpenFromOthers(s: seq<nat>, open: set<nat>, index: nat, x: nat)
    requires forall i :: index <= i < |s| ==> s[i] != x
    ensures OpenFrom(s, open - {x}, index) == OpenFrom(s, open, index)
    decreases |s| - index
  {
    if index < |s| {
      OpenFromOthers(s, open, index + 1, x);
    }
  }

  lemma MarkedIs(st: Peers, peer: nat)
    ensures var m := MarkClosed(st, peer);
            && m == st.(unclosed := m.unclosed, closes := m.closes) && m.unclosed == st.unclosed - {peer}
            && m.closes == st.closes + if peer in st.unclosed then [peer] else []
  {
  }

  lemma {:induction false} LoopKeeps(st: Peers, index: nat, h: Handlers)
    requires InStep(st) && NoHandlers(h)
    ensures var r := CloseFrom(st, index, h); r == st.(unclosed := r.unclosed, closes := r.closes)
    decreases |st.owned| - index
  {
    hide Descends, InStep, Close, MarkClosed, Keep;
    if index < |st.owned| {
      var peer := st.owned[index];
      MarkedIs(st, peer);
      IdleTurn(st, index, h);
      hide CloseFrom;
      LoopKeeps(MarkClosed(st, peer), index + 1, h);
    }
  }

  lemma {:induction false} LoopAlone(st: Peers, index: nat, h: Handlers)
    requires InStep(st) && NoHandlers(h)
    ensures CloseFrom(st, index, h).closes == st.closes + OpenFrom(st.owned, st.unclosed, index)
    decreases |st.owned| - index
  {
    hide Descends, InStep, Close, MarkClosed, Keep, Distinct;
    if index < |st.owned| {
      var peer := st.owned[index];
      MarkedIs(st, peer);
      IdleTurn(st, index, h);
      hide CloseFrom;
      LoopAlone(MarkClosed(st, peer), index + 1, h);
      OpenStep(st, index);
    }
  }

  /** The first of them, and the others once it is closed. */
  lemma OpenStep(st: Peers, index: nat)
    requires InStep(st) && index < |st.owned|
    ensures var peer := st.owned[index];
            OpenFrom(st.owned, st.unclosed, index)
            == (if peer in st.unclosed then [peer] else []) + OpenFrom(st.owned, st.unclosed - {peer}, index + 1)
    ensures forall c: seq<nat>, d: seq<nat>, e: seq<nat> :: c + d + e == c + (d + e)
  {
    StepIsDistinct(st);
    OpenFromOthers(st.owned, st.unclosed, index + 1, st.owned[index]);
    forall c: seq<nat>, d: seq<nat>, e: seq<nat>
      ensures c + d + e == c + (d + e)
    {
    }
  }

  lemma StepIsDistinct(st: Peers)
    ensures InStep(st) ==> Distinct(st.owned)
  {
  }

  lemma {:induction false} LoopOpens(st: Peers, index: nat, h: Handlers, p: nat)
    requires InStep(st) && NoHandlers(h)
    ensures p in CloseFrom(st, index, h).unclosed <==>
              p in st.unclosed && forall i :: index <= i < |st.owned| ==> st.owned[i] != p
    decreases |st.owned| - index
  {
    hide Descends, InStep, Close, MarkClosed, Keep;
    if index < |st.owned| {
      MarkedIs(st, st.owned[index]);
      IdleTurn(st, index, h);
      hide CloseFrom;
      LoopOpens(MarkClosed(st, st.owned[index]), index + 1, h, p);
    }
  }

  /** Without handlers in the way, closing the owned peers closes each that is open, once
      and in order, and changes neither list. */
  lemma CloseOwnedAlone(st: Peers, h: Handlers)
    requires InStep(st) && !st.closing && NoHandlers(h)
    ensures var r := CloseOwned(st, h);
            && r == st.(unclosed := r.unclosed, closes := r.closes)
            && r.closes == st.closes + OpenFrom(st.owned, st.unclosed, 0)
            && (forall p :: p in r.unclosed <==> p in st.unclosed && p !in st.owned)
  {
    hide Descends, Keep, Close, CloseFrom, OpenFrom, Distinct;
    LoopKeeps(st.(closing := true), 0, h);
    LoopAlone(st.(closing := true), 0, h);
    forall p
      ensures p in CloseOwned(st, h).unclosed <==> p in st.unclosed && p !in st.owned
    {
      LoopOpens(st.(closing := true), 0, h, p);
    }
  }
}
