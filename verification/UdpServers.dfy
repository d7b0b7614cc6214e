/** The server object. */
module UdpServers {
  import opened UdpEndpoints
  import opened Wrappers
  import opened UdpPeers

  class UdpServer {
    var open: bool
    var owned: seq<Peer>
    var members: seq<nat>
    var nextId: nat

    ghost function View(): Server
      reads this
    {
      Server(open, owned, nextId)
    }

    /** The member list names the owned peers in the same order. */
    ghost predicate InStep()
      reads this
    {
      UdpPeers.Valid(View()) && members == Ids(owned)
    }

    /** created says whether the system provided a descriptor. */
    constructor (created: bool)
      ensures InStep() && View() == NewServer(created)
    {
      open, owned, members, nextId := created, [], [], 0;
    }

    /** The first member whose endpoint matches. */
    method FindUdpPeer(remote: Endpoint) returns (i: nat)
      requires InStep()
      ensures i == Find(owned, remote)
    {
      i := 0;
      while i < |members|
        invariant i <= |members| == |owned|
        invariant forall k :: 0 <= k < i ==> !SamePeer(owned[k].remote, remote)
      {
        if SamePeer(owned[i].remote, remote) {
          return;
        }
        i := i + 1;
      }
    }

    method FindOwned(id: nat) returns (i: nat)
      ensures i == IndexOf(owned, id)
    {
      i := 0;
      while i < |owned| && owned[i].id != id
        invariant i <= |owned|
        invariant forall k :: 0 <= k < i ==> owned[k].id != id
      {
        i := i + 1;
      }
    }

    method RemovePeer(id: nat) returns (ok: bool)
      requires InStep()
      modifies this
      ensures InStep() && View() == AfterRemove(old(View()), id)
      ensures ok <==> exists k :: 0 <= k < |old(owned)| && old(owned)[k].id == id
    {
      var i := FindOwned(id);
      if i == |owned| {
        return false;
      }
      DroppedKeeps(View(), i);
      IdsDropped(owned, i);
      members := members[..i] + members[i + 1..];
      owned := owned[..i] + owned[i + 1..];
      ok := true;
    }

    method GetPeer(remote: Endpoint) returns (peer: Option<nat>)
      requires InStep() && (remote.Unspecified? || Usable(remote))
      modifies this
      ensures InStep() && View() == AfterGet(old(View()), remote)
      ensures peer == Answer(old(View()), remote)
    {
      hide SamePeer, Usable, Find;
      GetKeeps(View(), remote);
      if !open {
        return None;
      }
      var i := FindUdpPeer(remote);
      if i < |owned| {
        var id := owned[i].id;
        if owned[i].active {
          return Some(id);
        }
        FindById(owned, i);
        var _ := RemovePeer(id);
      }
      if remote.Unspecified? {
        return None;
      }
      IdsSnoc(owned, Peer(nextId, remote, true));
      owned := owned + [Peer(nextId, remote, true)];
      members := members + [nextId];
      peer := Some(nextId);
      nextId := nextId + 1;
    }

    method ClosePeer(id: nat) returns (wasActive: bool)
      requires InStep()
      modifies `owned
      ensures InStep() && View() == AfterClosePeer(old(View()), id)
      ensures wasActive <==> exists k :: 0 <= k < |old(owned)| && old(owned)[k].id == id && old(owned)[k].active
    {
      StepKeeps(View(), Op.ClosePeer(id));
      var i := FindOwned(id);
      wasActive := false;
      if i < |owned| {
        wasActive := owned[i].active;
        IdsUpdate(owned, i, UdpPeers.Closed(owned[i]));
        owned := owned[i := UdpPeers.Closed(owned[i])];
      }
    }

    /** Each owned peer in turn; the collection keeps the closed peers. */
    method CloseOwnedPeers() returns (changed: bool)
      requires InStep()
      modifies `owned
      ensures InStep() && owned == AllClosed(old(owned))
      ensures changed <==> exists k :: 0 <= k < |old(owned)| && old(owned)[k].active
    {
      hide UdpPeers.Valid, Ids;
      ghost var before := owned;
      AllClosedKeeps(View());
      IdsClosed(before);
      changed := false;
      var i := 0;
      while i < |owned|
        invariant i <= |owned| == |before|
        invariant forall k :: 0 <= k < |before| ==> owned[k] == if k < i then UdpPeers.Closed(before[k]) else before[k]
        invariant changed <==> exists k :: 0 <= k < i && before[k].active
      {
        var closed := owned[i].active;
        changed := closed || changed;
        owned := owned[i := UdpPeers.Closed(owned[i])];
        i := i + 1;
      }
      assert owned == AllClosed(before);
    }

    /** closes says whether the system closed the descriptor without an error. */
    method Close(closes: bool) returns (changed: bool)
      requires InStep()
      modifies this
      ensures InStep() && View() == AfterClose(old(View()))
      ensures changed <==> (old(open) && closes) || exists k :: 0 <= k < |old(owned)| && old(owned)[k].active
    {
      changed := open && closes;
      open := false;
      var peersChanged := CloseOwnedPeers();
      changed := peersChanged || changed;
    }

    method Listen(bound: bool)
      requires InStep()
      modifies this
      ensures InStep() && View() == AfterListen(old(View()), bound)
    {
      if bound {
        open := true;
        var _ := CloseOwnedPeers();
      }
    }

    /** A datagram read from an endpoint makes or finds its peer. */
    method Read(count: int, from: Endpoint) returns (n: int)
      requires InStep() && (from.Unspecified? || Usable(from))
      modifies this
      ensures InStep() && n == count
      ensures View() == if count >= 0 then AfterGet(old(View()), from) else old(View())
    {
      n := count;
      if n >= 0 {
        var _ := GetPeer(from);
      }
    }
  }

  function Ids(peers: seq<Peer>): (r: seq<nat>)
    ensures |r| == |peers|
    ensures forall k :: 0 <= k < |peers| ==> r[k] == peers[k].id
  {
    if peers == [] then [] else [peers[0].id] + Ids(peers[1..])
  }

  lemma IdsClosed(peers: seq<Peer>)
    ensures Ids(AllClosed(peers)) == Ids(peers)
  {
    hide Ids, AllClosed;
  }

  lemma IdsDropped(peers: seq<Peer>, i: nat)
    requires i < |peers|
    ensures Ids(peers)[..i] + Ids(peers)[i + 1..] == Ids(peers[..i] + peers[i + 1..])
  {
    hide Ids;
  }

  lemma IdsSnoc(peers: seq<Peer>, p: Peer)
    ensures Ids(peers + [p]) == Ids(peers) + [p.id]
  {
    hide Ids;
  }

  lemma IdsUpdate(peers: seq<Peer>, i: nat, p: Peer)
    requires i < |peers| && p.id == peers[i].id
    ensures Ids(peers[i := p]) == Ids(peers)
  {
    hide Ids;
  }

  lemma FindById(peers: seq<Peer>, i: nat)
    requires NoTwins(peers) && i < |peers|
    ensures IndexOf(peers, peers[i].id) == i
  {
  }
}
