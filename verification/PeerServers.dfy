/** The peer collection as an object: two lists changed in place, and methods that
    user code reenters through close handlers. */
module PeerServers {
  import opened PeerCollections

  class PeerCollection {
    var owned: seq<nat>
    var members: seq<nat>
    var closingPeers: bool
    var unclosed: set<nat>
    ghost var retired: set<nat>
    ghost var closes: seq<nat>

    ghost function View(): Peers
      reads this
    {
      Peers(owned, members, closingPeers, unclosed, retired, closes)
    }

    /** peers are the sockets that may ever join, all of them open. */
    constructor (peers: set<nat>)
      ensures View() == Peers([], [], false, peers, {}, []) && InStep(View())
    {
      owned, members, closingPeers, unclosed := [], [], false, peers;
      retired, closes := {}, [];
    }

    method Close(peer: nat, h: Handlers) returns (closed: bool)
      requires InStep(MarkClosed(View(), peer))
      modifies this
      ensures View() == PeerCollections.Close(old(View()), peer, h) && closed == (peer in old(unclosed))
      decreases |unclosed|, 0, 0
    {
      hide InStep, Descends;
      closed := peer in unclosed;
      Smaller(unclosed, peer);
      ClosedUnchanged(View(), peer);
      if closed {
        unclosed := unclosed - {peer};
        closes := closes + [peer];
        RunHandler(h(peer), h);
      }
    }

    method RunHandler(ops: seq<PeerOp>, h: Handlers)
      requires InStep(View())
      modifies this
      ensures View() == PeerCollections.RunHandler(old(View()), ops, h)
      decreases |unclosed|, 4, |ops|
    {
      hide InStep, Keep, PeerCollections.Perform;
      if ops != [] {
        Perform(ops[0], h);
        SubsetSize(unclosed, old(unclosed));
        RunHandler(ops[1..], h);
      }
    }

    method Perform(op: PeerOp, h: Handlers)
      requires InStep(View())
      modifies this
      ensures View() == PeerCollections.Perform(old(View()), op, h)
      decreases |unclosed|, 3, 0
    {
      hide InStep, Descends, PeerCollections.RemoveOwnedPeer, PeerCollections.AddPeer, PeerCollections.CloseOwned,
           PeerCollections.Close;
      match op
      case Retire(p) => var _ := RemoveOwnedPeer(p, h);
      case Accept(p) => var _ := AddPeer(p);
      case ClosePeer(p) =>
        MarkClosedDescends(View(), p);
        if p in owned {
          var _ := Close(p, h);
        }
      case CloseAll => var _ := CloseOwnedPeers(h);
    }

    method AddPeer(peer: nat) returns (ok: bool)
      requires InStep(View())
      modifies this
      ensures View() == PeerCollections.AddPeer(old(View()), peer)
      ensures ok == (peer in old(unclosed) && peer !in old(owned))
    {
      if peer !in unclosed || peer in owned {
        return false;
      }
      owned := owned + [peer];
      members := members + [peer];
      return true;
    }

    method RemoveOwnedPeer(peer: nat, h: Handlers) returns (ok: bool)
      requires InStep(View())
      modifies this
      ensures View() == PeerCollections.RemoveOwnedPeer(old(View()), peer, h) && ok == (peer in old(owned))
      decreases |unclosed|, 2, 0
    {
      hide Descends, PeerCollections.Close, Distinct, Keep, Without;
      if peer !in owned {
        return false;
      }
      DetachCloseDescends(View(), peer);
      RemoveMember(peer);
      owned := Without(owned, peer);
      retired := retired + {peer};
      var _ := Close(peer, h);
      return true;
    }

    /** The first occurrence leaves the member list. */
    method RemoveMember(peer: nat)
      modifies this`members
      ensures members == Without(old(members), peer)
    {
      var i := 0;
      while i < |members|
        invariant i <= |members| && members == old(members)
        invariant peer !in members[..i]
      {
        if members[i] == peer {
          FirstPosition(members, peer, i);
          members := members[..i] + members[i + 1..];
          return;
        }
        i := i + 1;
      }
      assert members[..|members|] == members;
      Absent(members, peer);
    }

    method CloseOwnedPeers(h: Handlers) returns (changed: bool)
      requires InStep(View())
      modifies this
      ensures View() == PeerCollections.CloseOwned(old(View()), h)
      ensures closingPeers == old(closingPeers)
      ensures changed <==> !old(closingPeers) && unclosed != old(unclosed)
      decreases |unclosed|, 2, 0
    {
      hide Keep, Distinct, PeerCollections.Close, Descends;
      if closingPeers {
        return false;
      }
      closingPeers := true;
      ghost var start := View();
      changed := false;
      var index := 0;
      while index < |owned|
        invariant InStep(View()) && unclosed <= start.unclosed
        invariant changed <==> unclosed != start.unclosed
        invariant CloseFrom(start, 0, h) == CloseFrom(View(), index, h)
        decreases |unclosed|, |owned| - index
      {
        ghost var before := View();
        var peer := owned[index];
        SubsetSize(unclosed, start.unclosed);
        CloseProgresses(before, peer, h);
        var closed := Close(peer, h);
        changed := closed || changed;
        if index < |owned| && owned[index] == peer {
          index := index + 1;
        }
      }
      closingPeers := false;
    }
  }
}
