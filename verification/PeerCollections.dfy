/** Server-owned peers: an owning list and a member list kept in step, and a loop
    that closes every peer while their close handlers retire, add or close peers
    behind its back.

    A close handler is any finite list of operations.  unclosed holds the peers,
    present or still to be accepted, whose descriptor has not been closed; a
    handler runs only on the transition from open to closed, so every nest of
    handlers ends. */
module PeerCollections {

  datatype PeerOp = Retire(peer: nat) | Accept(peer: nat) | ClosePeer(peer: nat) | CloseAll

  type Handlers = nat -> seq<PeerOp>

  datatype Peers = Peers(
    owned: seq<nat>,
    members: seq<nat>,
    closing: bool,
    unclosed: set<nat>,
    retired: set<nat>,      // peers taken out of the collection
    closes: seq<nat>)       // peers in the order their close took effect

  predicate Distinct(s: seq<nat>) {
    forall i, j :: 0 <= i < j < |s| ==> s[i] != s[j]
  }

  /** The elements not in gone, in order. */
  function Keep(s: seq<nat>, gone: set<nat>): seq<nat> {
    if s == [] then []
    else Keep(s[..|s| - 1], gone) + (if s[|s| - 1] in gone then [] else [s[|s| - 1]])
  }

  function Position(s: seq<nat>, x: nat): (i: nat)
    ensures i <= |s|
    ensures i < |s| ==> s[i] == x
    ensures forall j :: 0 <= j < i ==> s[j] != x
  {
    if s == [] then 0 else if s[0] == x then 0 else 1 + Position(s[1..], x)
  }

  function Without(s: seq<nat>, x: nat): seq<nat> {
    var i := Position(s, x);
    if i < |s| then s[..i] + s[i + 1..] else s
  }

  /** What holds whenever user code may run. */
  ghost predicate InStep(st: Peers) {
    && st.owned == st.members
    && Distinct(st.owned)
    && Distinct(st.closes)
    && (forall p :: p in st.owned ==> p !in st.retired)
    && (forall p :: p in st.retired ==> p !in st.unclosed)
    && (forall p :: p in st.closes ==> p !in st.unclosed)
  }

  // ----- lists -------------------------------------------------------------

  lemma {:induction false} KeepMembers(s: seq<nat>, gone: set<nat>)
    ensures forall x :: x in Keep(s, gone) <==> x in s && x !in gone
    ensures |Keep(s, gone)| <= |s|
  {
    if s != [] {
      KeepMembers(s[..|s| - 1], gone);
      assert s == s[..|s| - 1] + [s[|s| - 1]];
    }
  }

  lemma {:induction false} KeepAppend(a: seq<nat>, b: seq<nat>, gone: set<nat>)
    ensures Keep(a + b, gone) == Keep(a, gone) + Keep(b, gone)
  {
    if b == [] {
      assert a + b == a;
    } else {
      var n := |b| - 1;
      KeepAppend(a, b[..n], gone);
      assert (a + b)[..|a + b| - 1] == a + b[..n];
    }
  }

  lemma {:induction false} KeepTwice(s: seq<nat>, gone: set<nat>, more: set<nat>)
    requires gone <= more
    ensures Keep(Keep(s, gone), more) == Keep(s, more)
  {
    if s != [] {
      var n := |s| - 1;
      KeepTwice(s[..n], gone, more);
      KeepAppend(Keep(s[..n], gone), if s[n] in gone then [] else [s[n]], more);
      if s[n] !in gone {
        assert Keep([s[n]], more) == Keep([], more) + (if s[n] in more then [] else [s[n]]);
      }
    }
  }

  lemma {:induction false} KeepAll(s: seq<nat>, gone: set<nat>)
    requires forall x :: x in s ==> x !in gone
    ensures Keep(s, gone) == s
  {
    if s != [] {
      KeepAll(s[..|s| - 1], gone);
      assert s == s[..|s| - 1] + [s[|s| - 1]];
    }
  }

  lemma KeepLast(s: seq<nat>, gone: set<nat>)
    requires s != []
    ensures Keep(s, gone) == Keep(s[..|s| - 1], gone) + (if s[|s| - 1] in gone then [] else [s[|s| - 1]])
  {
  }

  lemma {:induction false} KeepSize(s: seq<nat>, gone: set<nat>)
    ensures |Keep(s, gone)| <= |s|
  {
    if s != [] {
      KeepLast(s, gone);
      hide Keep;
      KeepSize(s[..|s| - 1], gone);
    }
  }

  lemma {:induction false} KeepFull(s: seq<nat>, gone: set<nat>)
    requires |Keep(s, gone)| == |s|
    ensures Keep(s, gone) == s
  {
    if s != [] {
      KeepLast(s, gone);
      hide Keep;
      var n := |s| - 1;
      KeepSize(s[..n], gone);
      KeepFull(s[..n], gone);
      assert s == s[..n] + [s[n]];
    }
  }

  lemma KeepOneOut(a: seq<nat>, x: nat, b: seq<nat>, gone: set<nat>)
    requires x in gone && (forall y :: y in a ==> y !in gone) && (forall y :: y in b ==> y !in gone)
    ensures Keep(a + [x] + b, gone) == a + b
  {
    KeepNone(x, gone);
    hide Keep;
    KeepAppend(a + [x], b, gone);
    KeepAppend(a, [x], gone);
    KeepAll(a, gone);
    KeepAll(b, gone);
    assert a + [] == a;
  }

  lemma KeepNone(x: nat, gone: set<nat>)
    requires x in gone
    ensures Keep([x], gone) == []
  {
    assert Keep([x], gone) == Keep([], gone) + [];
  }

  lemma WithoutIsKeep(s: seq<nat>, x: nat, gone: set<nat>)
    requires Distinct(s) && forall y :: y in s ==> y !in gone
    ensures Without(s, x) == Keep(s, gone + {x})
  {
    var i := Position(s, x);
    if i < |s| {
      hide Keep;
      var a, b := s[..i], s[i + 1..];
      assert s == a + [x] + b;
      assert forall y :: y in a ==> y in s && y != x;
      assert forall y :: y in b ==> y in s && y != x;
      KeepOneOut(a, x, b, gone + {x});
    } else {
      hide Keep;
      KeepAll(s, gone + {x});
    }
  }

  lemma WithoutDistinct(s: seq<nat>, x: nat)
    requires Distinct(s)
    ensures Distinct(Without(s, x))
  {
    var w := Without(s, x);
    var i := Position(s, x);
    assert forall j :: 0 <= j < |w| ==> w[j] == s[if j < i then j else j + 1];
  }

  // ----- operations --------------------------------------------------------

  /** From st to st' some peers were retired and some accepted: the survivors keep
      their order, newcomers follow them, and nothing is reopened. */
  ghost predicate Descends(st: Peers, st': Peers) {
    && st.retired <= st'.retired
    && st'.unclosed <= st.unclosed
    && st'.closing == st.closing
    && st.closes <= st'.closes
    && Keep(st.owned, st'.retired) <= st'.owned
  }

  lemma DescendsAgain(a: Peers, b: Peers, c: Peers)
    requires Descends(a, b) && Descends(b, c)
    ensures Descends(a, c)
  {
    var kept := Keep(a.owned, b.retired);
    var added := b.owned[|kept|..];
    assert b.owned == kept + added;
    KeepAppend(kept, added, c.retired);
    KeepTwice(a.owned, b.retired, c.retired);
  }

  lemma DescendsSame(st: Peers)
    requires InStep(st)
    ensures Descends(st, st)
  {
    KeepAll(st.owned, st.retired);
  }

  function Detach(st: Peers, peer: nat): Peers {
    st.(owned := Without(st.owned, peer), members := Without(st.members, peer), retired := st.retired + {peer})
  }

  lemma AcceptKeeps(st: Peers, peer: nat)
    requires InStep(st) && peer in st.unclosed && peer !in st.owned
    ensures var st' := st.(owned := st.owned + [peer], members := st.members + [peer]);
            InStep(st') && Descends(st, st')
  {
    KeepAll(st.owned, st.retired);
  }

  /** The descriptor of a peer is gone; its handler has not run yet. */
  function MarkClosed(st: Peers, peer: nat): Peers {
    st.(unclosed := st.unclosed - {peer}, closes := if peer in st.unclosed then st.closes + [peer] else st.closes)
  }

  lemma MarkClosedDescends(st: Peers, peer: nat)
    requires InStep(st)
    ensures InStep(MarkClosed(st, peer)) && Descends(st, MarkClosed(st, peer))
    ensures peer in st.unclosed ==> |MarkClosed(st, peer).unclosed| < |st.unclosed|
  {
    KeepAll(st.owned, st.retired);
    Smaller(st.unclosed, peer);
  }

  lemma Smaller(s: set<nat>, x: nat)
    ensures x in s ==> |s - {x}| < |s|
    ensures |s - {x}| <= |s|
  {
    if x in s {
      assert s == (s - {x}) + {x};
    } else {
      assert s - {x} == s;
    }
  }

  lemma DetachCloseDescends(st: Peers, peer: nat)
    requires InStep(st) && peer in st.owned
    ensures InStep(MarkClosed(Detach(st, peer), peer)) && Descends(st, MarkClosed(Detach(st, peer), peer))
  {
    hide Distinct, Without;
    WithoutIsKeep(st.owned, peer, st.retired);
    WithoutDistinct(st.owned, peer);
    KeepMembers(st.owned, st.retired + {peer});
    DistinctSnoc(st.closes, peer);
  }

  lemma DistinctSnoc(s: seq<nat>, x: nat)
    requires Distinct(s)
    ensures x !in s ==> Distinct(s + [x])
  {
  }

  lemma SubsetSize(a: set<nat>, b: set<nat>)
    requires a <= b
    ensures |a| <= |b|
  {
    assert b == a + (b - a);
  }

  /** peer->close(): the handler runs only if there was something to close. */
  ghost function Close(st: Peers, peer: nat, h: Handlers): (r: Peers)
    requires InStep(MarkClosed(st, peer))
    ensures InStep(r) && Descends(MarkClosed(st, peer), r)
    decreases |st.unclosed|, 0, 0
  {
    DescendsSame(MarkClosed(st, peer));
    Smaller(st.unclosed, peer);
    if peer in st.unclosed then RunHandler(MarkClosed(st, peer), h(peer), h) else MarkClosed(st, peer)
  }

  ghost function RunHandler(st: Peers, ops: seq<PeerOp>, h: Handlers): (r: Peers)
    requires InStep(st)
    ensures InStep(r) && Descends(st, r)
    decreases |st.unclosed|, 4, |ops|
  {
    DescendsSame(st);
    if ops == [] then st
    else
      var st1 := Perform(st, ops[0], h);
      SubsetSize(st1.unclosed, st.unclosed);
      var r := RunHandler(st1, ops[1..], h);
      DescendsAgain(st, st1, r);
      r
  }

  ghost function Perform(st: Peers, op: PeerOp, h: Handlers): (r: Peers)
    requires InStep(st)
    ensures InStep(r) && Descends(st, r)
    decreases |st.unclosed|, 3, 0
  {
    DescendsSame(st);
    match op
    case Retire(p) => RemoveOwnedPeer(st, p, h)
    case Accept(p) => AddPeer(st, p)
    case ClosePeer(p) =>
      MarkClosedDescends(st, p);
      if p in st.owned then
        DescendsAgain(st, MarkClosed(st, p), Close(st, p, h));
        Close(st, p, h)
      else st
    case CloseAll => CloseOwned(st, h)
  }

  /** add_peer: both lists grow together. */
  ghost function AddPeer(st: Peers, peer: nat): (r: Peers)
    requires InStep(st)
    ensures InStep(r) && Descends(st, r)
  {
    DescendsSame(st);
    if peer in st.unclosed && peer !in st.owned then
      AcceptKeeps(st, peer);
      st.(owned := st.owned + [peer], members := st.members + [peer])
    else st
  }

  /** remove_owned_peer: detached from both lists before its handler can run. */
  ghost function RemoveOwnedPeer(st: Peers, peer: nat, h: Handlers): (r: Peers)
    requires InStep(st)
    ensures InStep(r) && Descends(st, r)
    ensures peer !in r.owned
    decreases |st.unclosed|, 2, 0
  {
    DescendsSame(st);
    if peer !in st.owned then st
    else
      DetachCloseDescends(st, peer);
      DescendsAgain(st, MarkClosed(Detach(st, peer), peer), Close(Detach(st, peer), peer, h));
      Close(Detach(st, peer), peer, h)
  }

  /** close_owned_peers: refused while one is already under way. */
  ghost function CloseOwned(st: Peers, h: Handlers): (r: Peers)
    requires InStep(st)
    ensures InStep(r) && Descends(st, r)
    decreases |st.unclosed|, 2, 0
  {
    DescendsSame(st);
    if st.closing then st else CloseFrom(st.(closing := true), 0, h).(closing := false)
  }

  /** The closing loop from a slot on.  The slot is advanced only if it still holds
      the peer just closed. */
  ghost function CloseFrom(st: Peers, index: nat, h: Handlers): (r: Peers)
    requires InStep(st)
    ensures InStep(r) && Descends(st, r)
    decreases |st.unclosed|, 1, |st.owned| - index
  {
    DescendsSame(st);
    if index >= |st.owned| then st
    else
      var peer := st.owned[index];
      MarkClosedDescends(st, peer);
      var st1 := Close(st, peer, h);
      DescendsAgain(st, MarkClosed(st, peer), st1);
      SubsetSize(st1.unclosed, MarkClosed(st, peer).unclosed);
      ClosedUnchanged(st, peer);
      var r := CloseFrom(st1, if index < |st1.owned| && st1.owned[index] == peer then index + 1 else index, h);
      DescendsAgain(st, st1, r);
      r
  }

  lemma ClosedUnchanged(st: Peers, peer: nat)
    ensures peer !in st.unclosed ==> MarkClosed(st, peer) == st
  {
    assert peer !in st.unclosed ==> st.unclosed - {peer} == st.unclosed;
  }

  lemma SubsetSizes(st: Peers, peer: nat, st1: Peers)
    requires Descends(MarkClosed(st, peer), st1)
    ensures |st1.unclosed| <= |MarkClosed(st, peer).unclosed|
  {
    SubsetSize(st1.unclosed, MarkClosed(st, peer).unclosed);
  }

  lemma FirstPosition(s: seq<nat>, x: nat, i: nat)
    requires i < |s| && s[i] == x && x !in s[..i]
    ensures Position(s, x) == i
  {
    assert forall j :: 0 <= j < i ==> s[j] == s[..i][j];
  }

  lemma Absent(s: seq<nat>, x: nat)
    requires x !in s
    ensures Without(s, x) == s
  {
  }

  /** A close either takes one more peer out of the unclosed ones or does nothing. */
  lemma CloseProgresses(st: Peers, peer: nat, h: Handlers)
    requires InStep(st)
    ensures InStep(MarkClosed(st, peer))
    ensures var r := Close(st, peer, h); r.unclosed <= st.unclosed && (|r.unclosed| < |st.unclosed| || r == st)
    ensures peer in st.unclosed <==> Close(st, peer, h).unclosed != st.unclosed
  {
    hide Keep, Distinct;
    MarkClosedDescends(st, peer);
    ClosedUnchanged(st, peer);
    SubsetSizes(st, peer, Close(st, peer, h));
  }
}
