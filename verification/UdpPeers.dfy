/** The logical peers of a UDP server: which endpoints share one, and for how long. */
module UdpPeers {
  import opened UdpEndpoints
  import opened Wrappers

  /** A peer object; its number stands for its address in memory. */
  datatype Peer = Peer(id: nat, remote: Endpoint, active: bool)

  /** open says that the server still has its native descriptor. */
  datatype Server = Server(open: bool, peers: seq<Peer>, nextId: nat)

  /** A server is constructed with a descriptor of its own, if the system provides one. */
  function NewServer(created: bool): Server {
    Server(created, [], 0)
  }

  // ----- operations --------------------------------------------------------

  /** The first peer for an endpoint, or |peers|. */
  function Find(peers: seq<Peer>, remote: Endpoint): (i: nat)
    ensures i <= |peers|
    ensures i < |peers| ==> SamePeer(peers[i].remote, remote)
    ensures forall k :: 0 <= k < i ==> !SamePeer(peers[k].remote, remote)
    decreases |peers|
  {
    if peers == [] then 0
    else if SamePeer(peers[0].remote, remote) then 0
    else 1 + Find(peers[1..], remote)
  }

  function Dropped(peers: seq<Peer>, i: nat): seq<Peer> {
    if i < |peers| then peers[..i] + peers[i + 1..] else peers
  }

  /** The position of a peer object, or |peers|. */
  function IndexOf(peers: seq<Peer>, id: nat): (i: nat)
    ensures i <= |peers|
    ensures i < |peers| ==> peers[i].id == id
    ensures forall k :: 0 <= k < i ==> peers[k].id != id
    decreases |peers|
  {
    if peers == [] then 0 else if peers[0].id == id then 0 else 1 + IndexOf(peers[1..], id)
  }

  /** The existing peer is the answer if it is still open. */
  predicate Reuses(s: Server, remote: Endpoint) {
    s.open && Find(s.peers, remote) < |s.peers| && s.peers[Find(s.peers, remote)].active
  }

  predicate Creates(s: Server, remote: Endpoint) {
    s.open && !Reuses(s, remote) && !remote.Unspecified?
  }

  function Answer(s: Server, remote: Endpoint): Option<nat> {
    if Reuses(s, remote) then Some(s.peers[Find(s.peers, remote)].id)
    else if Creates(s, remote) then Some(s.nextId)
    else None
  }

  /** A closed peer for the endpoint makes way for a new one. */
  function AfterGet(s: Server, remote: Endpoint): Server {
    var kept := if s.open && !Reuses(s, remote) then Dropped(s.peers, Find(s.peers, remote)) else s.peers;
    s.(peers := if Creates(s, remote) then kept + [Peer(s.nextId, remote, true)] else kept,
       nextId := if Creates(s, remote) then s.nextId + 1 else s.nextId)
  }

  function AfterRemove(s: Server, id: nat): Server {
    s.(peers := Dropped(s.peers, IndexOf(s.peers, id)))
  }

  function Closed(p: Peer): Peer {
    p.(active := false)
  }

  function AfterClosePeer(s: Server, id: nat): Server {
    var i := IndexOf(s.peers, id);
    s.(peers := if i < |s.peers| then s.peers[i := Closed(s.peers[i])] else s.peers)
  }

  function AllClosed(peers: seq<Peer>): (r: seq<Peer>)
    ensures |r| == |peers|
    ensures forall k :: 0 <= k < |peers| ==> r[k] == Closed(peers[k])
  {
    if peers == [] then [] else [Closed(peers[0])] + AllClosed(peers[1..])
  }

  function AfterClose(s: Server): Server {
    s.(open := false, peers := AllClosed(s.peers))
  }

  /** A successful bind closes every peer; a failed one changes nothing. */
  function AfterListen(s: Server, bound: bool): Server {
    s.(open := s.open || bound, peers := if bound then AllClosed(s.peers) else s.peers)
  }

  datatype Op =
    | Get(remote: Endpoint)
    | Arrive(from: Endpoint)
    | Remove(removed: nat)
    | ClosePeer(closed: nat)
    | CloseServer
    | Listen(bound: bool)

  function Apply(s: Server, op: Op): Server {
    match op
    case Get(remote) => AfterGet(s, remote)
    case Arrive(from) => AfterGet(s, from)
    case Remove(id) => AfterRemove(s, id)
    case ClosePeer(id) => AfterClosePeer(s, id)
    case CloseServer => AfterClose(s)
    case Listen(bound) => AfterListen(s, bound)
  }

  /** An endpoint given to the server is of a supported family or of no family. */
  predicate WellFormed(op: Op) {
    match op
    case Get(remote) => remote.Unspecified? || Usable(remote)
    case Arrive(from) => from.Unspecified? || Usable(from)
    case Remove(_) => true
    case ClosePeer(_) => true
    case CloseServer => true
    case Listen(_) => true
  }

  // ----- the invariant -----------------------------------------------------

  predicate NoTwins(peers: seq<Peer>) {
    && (forall k :: 0 <= k < |peers| ==> Usable(peers[k].remote))
    && (forall j, k :: 0 <= j < k < |peers| ==>
          !SamePeer(peers[j].remote, peers[k].remote) && peers[j].id != peers[k].id)
  }

  predicate Valid(s: Server) {
    && NoTwins(s.peers)
    && forall k :: 0 <= k < |s.peers| ==> s.peers[k].id < s.nextId
  }

  /** No peer is equivalent to an endpoint without a family. */
  lemma NobodyIsUnspecified(e: Endpoint)
    ensures !SamePeer(e, Unspecified)
  {
  }

  lemma SamePeerSymmetric(a: Endpoint, b: Endpoint)
    requires Usable(a) && Usable(b)
    ensures SamePeer(a, b) <==> SamePeer(b, a)
  {
    SamePeerIsEquivalence(a, b, a);
    SamePeerIsEquivalence(b, a, b);
  }

  lemma DroppedKeeps(s: Server, i: nat)
    requires Valid(s)
    ensures Valid(s.(peers := Dropped(s.peers, i)))
  {
    hide SamePeer, Usable;
  }

  /** After the first match is dropped nothing equivalent is left. */
  lemma NoneLeft(peers: seq<Peer>, remote: Endpoint)
    requires NoTwins(peers) && Usable(remote)
    ensures forall k :: 0 <= k < |Dropped(peers, Find(peers, remote))| ==>
              !SamePeer(Dropped(peers, Find(peers, remote))[k].remote, remote)
  {
    hide SamePeer, Usable;
    var i := Find(peers, remote);
    if i < |peers| {
      forall k | i < k < |peers|
        ensures !SamePeer(peers[k].remote, remote)
      {
        SamePeerIsEquivalence(peers[i].remote, remote, peers[k].remote);
        SamePeerSymmetric(remote, peers[k].remote);
      }
    }
  }

  lemma GetKeeps(s: Server, remote: Endpoint)
    requires Valid(s) && (remote.Unspecified? || Usable(remote))
    ensures Valid(AfterGet(s, remote))
  {
    hide SamePeer, Usable, Valid, NoTwins, Find;
    if s.open && !Reuses(s, remote) {
      DroppedKeeps(s, Find(s.peers, remote));
    }
    if Creates(s, remote) {
      NoneLeft(s.peers, remote) by { ValidHasNoTwins(s); }
      JoinKeeps(s.(peers := Dropped(s.peers, Find(s.peers, remote))), remote);
    }
  }

  lemma ValidHasNoTwins(s: Server)
    requires Valid(s)
    ensures NoTwins(s.peers)
  {
  }

  lemma JoinKeeps(s: Server, remote: Endpoint)
    requires Valid(s) && Usable(remote)
    requires forall k :: 0 <= k < |s.peers| ==> !SamePeer(s.peers[k].remote, remote)
    ensures Valid(s.(peers := s.peers + [Peer(s.nextId, remote, true)], nextId := s.nextId + 1))
  {
    hide SamePeer, Usable;
  }

  lemma AllClosedKeeps(s: Server)
    requires Valid(s)
    ensures Valid(s.(peers := AllClosed(s.peers)))
  {
    hide SamePeer, Usable;
  }

  lemma StepKeeps(s: Server, op: Op)
    requires Valid(s) && WellFormed(op)
    ensures Valid(Apply(s, op))
  {
    hide SamePeer, Usable, AfterGet;
    match op
    case Get(remote) => GetKeeps(s, remote);
    case Arrive(from) => GetKeeps(s, from);
    case Remove(id) => DroppedKeeps(s, IndexOf(s.peers, id));
    case ClosePeer(id) =>
    case CloseServer => AllClosedKeeps(s);
    case Listen(bound) => AllClosedKeeps(s);
  }

  function Run(s: Server, ops: seq<Op>): Server
    decreases |ops|
  {
    if ops == [] then s else Run(Apply(s, ops[0]), ops[1..])
  }

  /** In no reachable state does a server own two equivalent peers. */
  lemma {:induction false} NeverTwins(s: Server, ops: seq<Op>)
    requires Valid(s) && forall k :: 0 <= k < |ops| ==> WellFormed(ops[k])
    ensures Valid(Run(s, ops))
    decreases |ops|
  {
    hide Apply, Valid, WellFormed;
    if ops != [] {
      assert WellFormed(ops[0]);
      StepKeeps(s, ops[0]);
      NeverTwins(Apply(s, ops[0]), ops[1..]);
    }
  }

  // ----- identity ----------------------------------------------------------

  /** The open peer id is the server's peer for the endpoint. */
  predicate Owns(s: Server, id: nat, remote: Endpoint) {
    s.open && exists k ::
      0 <= k < |s.peers| && s.peers[k].id == id && s.peers[k].active && SamePeer(s.peers[k].remote, remote)
  }

  lemma OwnsAnswers(s: Server, id: nat, remote: Endpoint)
    requires Valid(s) && Usable(remote)
    ensures Owns(s, id, remote) <==> Reuses(s, remote) && Answer(s, remote) == Some(id)
  {
    hide SamePeer, Usable;
    var i := Find(s.peers, remote);
    if Owns(s, id, remote) {
      var k :| 0 <= k < |s.peers| && s.peers[k].id == id && s.peers[k].active && SamePeer(s.peers[k].remote, remote);
      if i < k {
        SamePeerSymmetric(s.peers[k].remote, remote);
        SamePeerIsEquivalence(s.peers[i].remote, remote, s.peers[k].remote);
      }
    }
  }

  /** Asking for a peer makes it the peer for that endpoint. */
  lemma GetOwns(s: Server, remote: Endpoint)
    requires Valid(s) && (remote.Unspecified? || Usable(remote))
    ensures Answer(s, remote).None? <==> !s.open || remote.Unspecified?
    ensures Answer(s, remote).Some? ==> Owns(AfterGet(s, remote), Answer(s, remote).value, remote)
  {
    hide SamePeer, Usable;
    if remote.Unspecified? {
      forall k | 0 <= k < |s.peers| ensures !SamePeer(s.peers[k].remote, remote) {
        NobodyIsUnspecified(s.peers[k].remote);
      }
    } else if Creates(s, remote) {
      SamePeerIsEquivalence(remote, remote, remote);
      var after := AfterGet(s, remote).peers;
      assert after[|after| - 1] == Peer(s.nextId, remote, true);
    }
  }

  /** What ends a peer: its own close or removal, the server's close, a new bind. */
  predicate Ends(op: Op, id: nat) {
    op == Remove(id) || op == ClosePeer(id) || op == CloseServer || op == Listen(true)
  }

  lemma OwnsStep(s: Server, op: Op, id: nat, remote: Endpoint)
    requires Valid(s) && WellFormed(op) && Owns(s, id, remote) && Usable(remote) && !Ends(op, id)
    ensures Owns(Apply(s, op), id, remote)
  {
    hide SamePeer, Usable, Find, IndexOf;
    var k :| 0 <= k < |s.peers| && s.peers[k].id == id && s.peers[k].active && SamePeer(s.peers[k].remote, remote);
    match op
    case Get(r) => OwnsGet(s, r, id, remote, k);
    case Arrive(r) => OwnsGet(s, r, id, remote, k);
    case Remove(other) => StillThere(s.peers, IndexOf(s.peers, other), k);
    case ClosePeer(other) =>
      assert AfterClosePeer(s, other).peers[k] == s.peers[k];
    case Listen(bound) =>
  }

  lemma StillThere(peers: seq<Peer>, i: nat, k: nat)
    requires k < |peers| && i != k
    ensures exists m :: 0 <= m < |Dropped(peers, i)| && Dropped(peers, i)[m] == peers[k]
  {
    if i < k {
      assert Dropped(peers, i)[k - 1] == peers[k];
    } else {
      assert Dropped(peers, i)[k] == peers[k];
    }
  }

  lemma OwnsGet(s: Server, r: Endpoint, id: nat, remote: Endpoint, k: nat)
    requires Valid(s) && s.open && k < |s.peers|
    requires s.peers[k].id == id && s.peers[k].active && SamePeer(s.peers[k].remote, remote)
    ensures Owns(AfterGet(s, r), id, remote)
  {
    hide SamePeer, Usable;
    if !Reuses(s, r) {
      var i := Find(s.peers, r);
      StillThere(s.peers, i, k);
      var m :| 0 <= m < |Dropped(s.peers, i)| && Dropped(s.peers, i)[m] == s.peers[k];
      assert AfterGet(s, r).peers[m] == s.peers[k];
    }
  }

  lemma {:induction false} OwnsForLong(s: Server, ops: seq<Op>, id: nat, remote: Endpoint)
    requires Valid(s) && Usable(remote) && Owns(s, id, remote)
    requires forall k :: 0 <= k < |ops| ==> WellFormed(ops[k]) && !Ends(ops[k], id)
    ensures Owns(Run(s, ops), id, remote)
    decreases |ops|
  {
    hide Apply, Valid, WellFormed, Owns, Ends;
    if ops != [] {
      assert WellFormed(ops[0]) && !Ends(ops[0], id);
      StepKeeps(s, ops[0]);
      OwnsStep(s, ops[0], id, remote);
      OwnsForLong(Apply(s, ops[0]), ops[1..], id, remote);
    }
  }

  lemma OwnsEquivalent(s: Server, id: nat, a: Endpoint, b: Endpoint)
    requires Valid(s) && Usable(a) && Usable(b) && SamePeer(a, b) && Owns(s, id, a)
    ensures Owns(s, id, b)
  {
    hide SamePeer, Usable;
    var k :| 0 <= k < |s.peers| && s.peers[k].id == id && s.peers[k].active && SamePeer(s.peers[k].remote, a);
    SamePeerIsEquivalence(s.peers[k].remote, a, b);
  }

  /** The answer of get_peer is the same object for every equivalent endpoint, through
      any other calls, until that peer or the server is closed or rebound. */
  lemma GetPeerIsStable(s: Server, a: Endpoint, ops: seq<Op>, b: Endpoint)
    requires Valid(s) && s.open && Usable(a) && Usable(b) && SamePeer(a, b)
    requires Answer(s, a).Some?
    requires forall k :: 0 <= k < |ops| ==> WellFormed(ops[k]) && !Ends(ops[k], Answer(s, a).value)
    ensures var later := Run(AfterGet(s, a), ops);
            Answer(later, b) == Answer(s, a) && AfterGet(later, b) == later
  {
    hide SamePeer, Usable, Valid, Owns, Ends, WellFormed;
    var id := Answer(s, a).value;
    var s1 := AfterGet(s, a);
    GetKeeps(s, a);
    GetOwns(s, a);
    NeverTwins(s1, ops);
    OwnsForLong(s1, ops, id, a);
    var later := Run(s1, ops);
    OwnsEquivalent(later, id, a, b);
    OwnsAnswers(later, id, b);
    assert AfterGet(later, b) == later;
  }

  /** Two endpoints get one peer exactly when they are equivalent. */
  lemma GetPeerIdentifies(s: Server, a: Endpoint, b: Endpoint)
    requires Valid(s) && s.open && Usable(a) && Usable(b)
    ensures Answer(AfterGet(s, a), b) == Answer(s, a) <==> Canonical(a) == Canonical(b)
  {
    hide SamePeer, Valid, Owns, Canonical, AfterGet, Reuses;
    SamePeerIsCanonicalEquality(a, b);
    GetKeeps(s, a);
    GetOwns(s, a);
    assert Answer(s, a).Some?;
    var s1 := AfterGet(s, a);
    var id := Answer(s, a).value;
    if SamePeer(a, b) {
      OwnsEquivalent(s1, id, a, b);
      OwnsAnswers(s1, id, b);
    } else if Answer(s1, b) == Some(id) {
      NotShared(s1, id, a, b);
    }
  }

  lemma NotShared(s: Server, id: nat, a: Endpoint, b: Endpoint)
    requires Valid(s) && Usable(a) && Usable(b) && Owns(s, id, a) && Answer(s, b) == Some(id)
    ensures SamePeer(a, b)
  {
    hide SamePeer, Usable;
    var k :| 0 <= k < |s.peers| && s.peers[k].id == id && s.peers[k].active && SamePeer(s.peers[k].remote, a);
    assert id < s.nextId;
    var i := Find(s.peers, b);
    assert i == k;
    SamePeerSymmetric(s.peers[k].remote, a);
    SamePeerIsEquivalence(a, s.peers[k].remote, b);
  }

  // ----- after its end -----------------------------------------------------

  /** No open peer has this number, and no new one will. */
  predicate Over(s: Server, id: nat) {
    id < s.nextId && forall k :: 0 <= k < |s.peers| && s.peers[k].id == id ==> !s.peers[k].active
  }

  lemma EndsIt(s: Server, op: Op, id: nat)
    requires Valid(s) && id < s.nextId && Ends(op, id)
    ensures Over(Apply(s, op), id)
  {
    hide SamePeer, Usable;
    var i := IndexOf(s.peers, id);
    match op
    case Remove(_) =>
      var rest := Dropped(s.peers, i);
      assert forall k :: 0 <= k < |rest| ==> rest[k] == s.peers[if k < i then k else k + 1];
    case ClosePeer(_) =>
    case CloseServer =>
    case Listen(_) =>
  }

  lemma StaysOver(s: Server, op: Op, id: nat)
    requires Valid(s) && WellFormed(op) && Over(s, id)
    ensures Over(Apply(s, op), id)
  {
    hide SamePeer, Usable, Valid, Find, IndexOf, Reuses, Creates;
    match op
    case Get(r) => OverGet(s, r, id);
    case Arrive(r) => OverGet(s, r, id);
    case Remove(other) => OverDropped(s, IndexOf(s.peers, other), id);
    case ClosePeer(_) =>
    case CloseServer =>
    case Listen(_) =>
  }

  lemma OverDropped(s: Server, i: nat, id: nat)
    requires Over(s, id)
    ensures Over(s.(peers := Dropped(s.peers, i)), id)
  {
    var rest := Dropped(s.peers, i);
    if i < |s.peers| {
      assert forall k :: 0 <= k < |rest| ==> rest[k] == s.peers[if k < i then k else k + 1];
    }
  }

  lemma OverGet(s: Server, r: Endpoint, id: nat)
    requires Over(s, id)
    ensures Over(AfterGet(s, r), id)
  {
    hide SamePeer, Find;
    OverDropped(s, Find(s.peers, r), id);
  }

  lemma {:induction false} OverForGood(s: Server, ops: seq<Op>, id: nat)
    requires Valid(s) && Over(s, id) && forall k :: 0 <= k < |ops| ==> WellFormed(ops[k])
    ensures Over(Run(s, ops), id) && Valid(Run(s, ops))
    decreases |ops|
  {
    hide Apply, Valid, WellFormed, Over;
    if ops != [] {
      assert WellFormed(ops[0]);
      StepKeeps(s, ops[0]);
      StaysOver(s, ops[0], id);
      OverForGood(Apply(s, ops[0]), ops[1..], id);
    }
  }

  /** A peer that was closed or removed, on its own, with the server or by a new bind, is
      never the answer of get_peer again, for no endpoint: the next request for its own
      endpoint gets a new object. */
  lemma EndedIsNeverAnswered(s: Server, op: Op, ops: seq<Op>, id: nat, remote: Endpoint)
    requires Valid(s) && id < s.nextId && Ends(op, id)
    requires forall k :: 0 <= k < |ops| ==> WellFormed(ops[k])
    ensures Answer(Run(Apply(s, op), ops), remote) != Some(id)
  {
    hide Apply, Valid, WellFormed, SamePeer;
    assert WellFormed(op) by { EndsAreWellFormed(op, id); }
    StepKeeps(s, op);
    EndsIt(s, op, id);
    OverForGood(Apply(s, op), ops, id);
  }

  lemma EndsAreWellFormed(op: Op, id: nat)
    requires Ends(op, id)
    ensures WellFormed(op)
  {
  }

  /** Removing one peer takes exactly it away, closing one only closes it. */
  lemma OthersStay(s: Server, id: nat, p: Peer)
    requires Valid(s)
    ensures p in AfterRemove(s, id).peers <==> p in s.peers && p.id != id
    ensures p.id != id ==> (p in AfterClosePeer(s, id).peers <==> p in s.peers)
    ensures |AfterClosePeer(s, id).peers| == |s.peers| && AfterClosePeer(s, id).open == s.open
  {
    hide SamePeer, Usable;
    var i := IndexOf(s.peers, id);
    var rest := AfterRemove(s, id).peers;
    assert forall k :: 0 <= k < |rest| ==> rest[k] == s.peers[if k < i then k else k + 1];
    if p in s.peers && p.id != id {
      var k :| 0 <= k < |s.peers| && s.peers[k] == p;
      StillThere(s.peers, i, k);
      assert AfterClosePeer(s, id).peers[k] == p;
    }
    if i < |s.peers| && p in AfterClosePeer(s, id).peers && p.id != id {
      var k :| 0 <= k < |s.peers| && AfterClosePeer(s, id).peers[k] == p;
      assert k != i && s.peers[k] == p;
    }
  }
}
