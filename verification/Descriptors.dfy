/** Native descriptors and the objects that own them, under any answers of the system. */
module Descriptors {
  import opened UdpEndpoints

  const INVALID: int := -1

  /** The system's table of open descriptors. It may hand out a number again once that
      number has been closed; every other answer is arbitrary. */
  class Os {
    var open: set<int>
    ghost var openings: multiset<int>
    ghost var closings: multiset<int>
    ghost var refusals: nat   // how often it has refused a call

    /** Each descriptor has been closed once for every time it was opened, except that
        the last opening of an open one still counts. */
    ghost predicate Valid()
      reads this
    {
      openings == closings + multiset(open) && forall fd :: fd in open ==> fd >= 0
    }

    constructor ()
      ensures Valid() && open == {}
    {
      open, openings, closings, refusals := {}, multiset{}, multiset{}, 0;
    }

    /** A new descriptor or a failure; socket and accept both answer this way. */
    method Open() returns (fd: int)
      requires Valid()
      modifies this
      ensures Valid()
      ensures fd == INVALID ==> open == old(open)
      ensures fd != INVALID ==> fd >= 0 && fd !in old(open) && open == old(open) + {fd}
      ensures fd != INVALID ==> closings == old(closings)
      ensures refusals == old(refusals) + if fd == INVALID then 1 else 0
    {
      fd := *;
      if fd < 0 || fd in open {
        refusals := refusals + 1;
        return INVALID;
      }
      open := open + {fd};
      openings := openings + multiset{fd};
    }

    /** Closing demands an open descriptor. The number is free afterwards, whatever the
        call answers. */
    method Close(fd: int) returns (ok: bool)
      requires Valid() && fd in open
      modifies this
      ensures Valid() && open == old(open) - {fd}
      ensures closings == old(closings) + multiset{fd} && refusals == old(refusals)
    {
      open := open - {fd};
      closings := closings + multiset{fd};
      ok := *;
    }

    /** bind, listen, connect, fcntl, setsockopt: any of them may fail at any time. */
    method Succeeds() returns (ok: bool)
      modifies this`refusals
      ensures refusals == old(refusals) + if ok then 0 else 1
    {
      ok := *;
      if !ok {
        refusals := refusals + 1;
      }
    }
  }

  predicate ValidPort(port: int) {
    0 <= port <= 65535
  }

  function FamilyOf(e: Endpoint): (f: Family)
    requires !e.Unspecified?
  {
    if e.V6? then Inet6 else Inet
  }

  /** How many of the endpoints have a family. */
  function Known(es: seq<Endpoint>): nat {
    if es == [] then 0 else Known(es[..|es| - 1]) + (if es[|es| - 1].Unspecified? then 0 else 1)
  }

  /** A socket object. A logical UDP peer has no descriptor of its own, and its type
      offers none of the calls that would give it one. */
  class Socket {
    const logical: bool
    var fd: int
    var family: Family
    var connected: bool
    var remote: Endpoint
    var port: int

    /** The descriptors this object must close. */
    ghost function Held(): set<int>
      reads this
    {
      if fd == INVALID then {} else {fd}
    }

    ghost predicate Owns(os: Os)
      reads this, os
    {
      os.Valid() && (fd == INVALID || fd in os.open)
    }

    /** Everything but the object's own descriptor. */
    ghost function Others(os: Os): set<int>
      reads this, os
    {
      os.open - Held()
    }

    constructor Native(os: Os, family: Family)
      requires os.Valid()
      modifies os
      ensures Owns(os) && Others(os) == old(os.open)
      ensures (fd == INVALID || fd !in old(os.open)) && !logical
      ensures os.refusals == old(os.refusals) + if fd == INVALID then 1 else 0
    {
      logical := false;
      this.family, connected, remote, port := family, false, Unspecified, 0;
      var made := os.Open();
      fd := made;
    }

    /** Takes over an accepted descriptor. */
    constructor Adopt(os: Os, accepted: int, peer: Endpoint)
      requires os.Valid() && accepted in os.open
      ensures Owns(os) && fd == accepted && remote == peer && !logical
    {
      logical := false;
      fd, connected, port := accepted, true, 0;
      family := if peer.V6? then Inet6 else Inet;
      remote := peer;
    }

    constructor Logical(peer: Endpoint)
      ensures fd == INVALID && remote == peer && logical
    {
      logical := true;
      fd, connected, port := INVALID, true, 0;
      family := if peer.V6? then Inet6 else Inet;
      remote := peer;
    }

    /** Ownership ends before the system is asked, so nothing closes twice. */
    method Close(os: Os) returns (changed: bool)
      requires Owns(os)
      modifies this, os
      ensures Owns(os) && fd == INVALID && os.open == old(Others(os))
      ensures changed ==> old(fd) != INVALID
      ensures remote == old(remote) && family == old(family) && port == old(port)
      ensures connected == (old(connected) && old(fd) == INVALID) && os.refusals == old(os.refusals)
    {
      if fd == INVALID {
        return false;
      }
      var held := fd;
      fd := INVALID;
      connected := false;
      changed := os.Close(held);
    }

    // ----- UDP -------------------------------------------------------------

    /** A configured candidate, or nothing at all. */
    static method SelectFamily(os: Os) returns (candidate: int)
      requires os.Valid()
      modifies os
      ensures os.Valid()
      ensures candidate == INVALID ==> os.open == old(os.open)
      ensures candidate != INVALID ==> candidate >= 0 && candidate !in old(os.open)
                                       && os.open == old(os.open) + {candidate}
      ensures os.refusals == old(os.refusals) + if candidate == INVALID then 1 else 0
    {
      candidate := os.Open();
      if candidate == INVALID {
        return;
      }
      var configured := os.Succeeds();
      if !configured {
        var _ := os.Close(candidate);
        return INVALID;
      }
    }

    /** Nothing about the object, nor any descriptor, has changed. */
    twostate predicate Unchanged(os: Os)
      reads this, os
    {
      fd == old(fd) && family == old(family) && connected == old(connected) && remote == old(remote)
      && port == old(port) && os.open == old(os.open)
    }

    /** The previous descriptor goes only once its replacement is in place. */
    method Swap(os: Os, candidate: int)
      requires Owns(os) && candidate in os.open && candidate != fd && candidate != INVALID
      modifies this`fd, os
      ensures Owns(os) && fd == candidate && Others(os) == old(Others(os)) - {candidate}
      ensures os.refusals == old(os.refusals)
    {
      var prior := fd;
      fd := candidate;
      if prior != INVALID {
        var _ := os.Close(prior);
      }
    }

    /** Move to a new configured descriptor, or stay on the old one. */
    method Replace(os: Os) returns (ok: bool)
      requires Owns(os)
      modifies this`fd, os
      ensures Owns(os) && Others(os) == old(Others(os))
      ensures ok ==> fd != INVALID && fd !in old(os.open)
      ensures !ok ==> fd == old(fd) && os.open == old(os.open)
      ensures os.refusals == old(os.refusals) + if ok then 0 else 1
    {
      var candidate := SelectFamily(os);
      ok := candidate != INVALID;
      if ok {
        Swap(os, candidate);
      }
    }

    /** Selecting a destination: the descriptor is kept if its family fits and replaced
        by a new one otherwise; it fails only without an address or if the system refuses
        the new one, and then changes nothing. */
    method UdpConnect(os: Os, target: Endpoint) returns (ok: bool)
      requires Owns(os) && !logical
      modifies this, os
      ensures Owns(os) && Others(os) == old(Others(os))
      ensures ok ==> fd != INVALID && !target.Unspecified? && family == FamilyOf(target)
                     && remote == target && connected && port == PortOf(target)
      ensures ok && old(fd) != INVALID && old(family) == family ==> fd == old(fd)
      ensures ok && fd != old(fd) ==> fd !in old(os.open)
      ensures !ok ==> Unchanged(os)
      ensures os.refusals == old(os.refusals) + if ok || target.Unspecified? then 0 else 1
    {
      if target.Unspecified? {
        return false;
      }
      if fd == INVALID || FamilyOf(target) != family {
        var replaced := Replace(os);
        if !replaced {
          return false;
        }
        family := FamilyOf(target);
      }
      remote := target;
      port := PortOf(target);
      connected := true;
      ok := true;
    }

    /** The addresses a name resolves to, tried in order until one can be selected. */
    method UdpConnectByName(os: Os, targets: seq<Endpoint>) returns (ok: bool)
      requires Owns(os) && !logical
      modifies this, os
      ensures Owns(os) && Others(os) == old(Others(os))
      ensures ok ==> fd != INVALID && remote in targets && connected
      ensures !ok ==> Unchanged(os)
      ensures !ok ==> os.refusals == old(os.refusals) + Known(targets)
    {
      var i := 0;
      assert targets[..0] == [];
      while i < |targets|
        invariant i <= |targets| && Owns(os) && Unchanged(os)
        invariant os.refusals == old(os.refusals) + Known(targets[..i])
        decreases |targets| - i
      {
        ok := UdpConnect(os, targets[i]);
        if ok {
          return;
        }
        assert targets[..i + 1][..i] == targets[..i];
        i := i + 1;
      }
      assert targets[..|targets|] == targets;
      return false;
    }

    /** Binding: dual stack is tried first, then IPv4. The object moves to a candidate
        that has been bound, or keeps everything it had. */
    method UdpListen(os: Os, wanted: int) returns (ok: bool)
      requires Owns(os) && !logical
      modifies this, os
      ensures Owns(os) && Others(os) == old(Others(os))
      ensures ok ==> ValidPort(wanted) && fd != INVALID && fd !in old(os.open)
                     && port == wanted && !connected && remote == Unspecified
      ensures !ok ==> Unchanged(os)
      ensures !ok && ValidPort(wanted) ==> os.refusals >= old(os.refusals) + 2
      ensures ok && family == Inet ==> os.refusals > old(os.refusals)
    {
      if !ValidPort(wanted) {
        return false;
      }
      var families := [Inet6, Inet];
      var i := 0;
      while i < |families|
        invariant i <= |families| == 2 && families[0] == Inet6 && families[1] == Inet
        invariant Owns(os) && Unchanged(os) && os.refusals >= old(os.refusals) + i
        decreases |families| - i
      {
        ok := BindCandidate(os, families[i], wanted);
        if ok {
          return;
        }
        i := i + 1;
      }
      return false;
    }

    method BindCandidate(os: Os, candidateFamily: Family, wanted: int) returns (ok: bool)
      requires Owns(os) && !logical
      modifies this, os
      ensures Owns(os) && Others(os) == old(Others(os))
      ensures ok ==> fd != INVALID && fd !in old(os.open) && family == candidateFamily
                     && port == wanted && !connected && remote == Unspecified
      ensures !ok ==> Unchanged(os) && os.refusals > old(os.refusals)
      ensures os.refusals >= old(os.refusals)
    {
      hide Os.Valid;
      var candidate := SelectFamily(os);
      if candidate == INVALID {
        return false;
      }
      var dualStack := os.Succeeds();
      var bound := os.Succeeds();
      if (candidateFamily == Inet6 && !dualStack) || !bound {
        var _ := os.Close(candidate);
        assert os.open == old(os.open);
        return false;
      }
      Swap(os, candidate);
      family, port, connected, remote := candidateFamily, wanted, false, Unspecified;
      ok := true;
    }

    /** Drop the old descriptor and ask for a new one. */
    method Reopen(os: Os)
      requires Owns(os)
      modifies this, os
      ensures Owns(os) && Others(os) == old(Others(os))
      ensures fd != INVALID ==> fd !in old(Others(os))
      ensures connected ==> old(connected)
      ensures remote == old(remote) && port == old(port)
      ensures os.refusals == old(os.refusals) + if fd == INVALID then 1 else 0
    {
      hide Os.Valid;
      ghost var others := Others(os);
      var _ := Close(os);
      assert os.open == others;
      var made := os.Open();
      fd := made;
      if made == INVALID {
        assert os.open - {} == others;
      } else {
        assert os.open - {made} == others;
      }
    }

    // ----- TCP -------------------------------------------------------------

    /** Each attempt starts on a new descriptor; a failed one leaves none behind. A
        target of no known family is refused before anything is touched. */
    method TcpConnect(os: Os, target: Endpoint) returns (ok: bool)
      requires Owns(os) && !logical
      modifies this, os
      ensures Owns(os) && Others(os) == old(Others(os))
      ensures ok ==> fd != INVALID && fd !in old(Others(os)) && remote == target && connected
                     && !target.Unspecified? && family == FamilyOf(target)
      ensures os.refusals == old(os.refusals) + if ok || target.Unspecified? then 0 else 1
      ensures !ok && target.Unspecified? ==> Unchanged(os)
      ensures !ok && !target.Unspecified? ==> fd == INVALID && !connected && remote == old(remote)
    {
      if target.Unspecified? {
        return false;
      }
      Reopen(os);
      connected := false;
      if fd == INVALID {
        return false;
      }
      family := FamilyOf(target);
      var succeeded := os.Succeeds();
      if !succeeded {
        var _ := Close(os);
        return false;
      }
      remote := target;
      connected := true;
      ok := true;
    }

    /** Listening is always a new binding. */
    method TcpListen(os: Os, where: Endpoint, wanted: int) returns (ok: bool)
      requires Owns(os) && !logical
      modifies this, os
      ensures Owns(os) && Others(os) == old(Others(os))
      ensures ok ==> fd != INVALID && connected && port == wanted && ValidPort(wanted)
      ensures !ok && (where.Unspecified? || !ValidPort(wanted)) ==> Unchanged(os)
      ensures !ok && !where.Unspecified? && ValidPort(wanted) ==> fd == INVALID
      ensures os.refusals == old(os.refusals) + if ok || where.Unspecified? || !ValidPort(wanted) then 0 else 1
      ensures remote == old(remote)
    {
      if where.Unspecified? || !ValidPort(wanted) {
        return false;
      }
      Reopen(os);
      if fd == INVALID {
        return false;
      }
      family := FamilyOf(where);
      port := wanted;
      var bound := os.Succeeds();
      if !bound {
        var _ := Close(os);
        return false;
      }
      var listening := os.Succeeds();
      if !listening {
        var _ := Close(os);
        return false;
      }
      connected := true;
      ok := true;
    }

    /** An accepted descriptor belongs to the caller; one that cannot be configured is
        closed here. */
    method TcpAccept(os: Os) returns (accepted: int)
      requires Owns(os)
      modifies os
      ensures Owns(os)
      ensures fd == INVALID ==> accepted == INVALID
      ensures accepted == INVALID ==> os.open == old(os.open)
      ensures accepted != INVALID ==> accepted >= 0 && accepted !in old(os.open)
                                      && os.open == old(os.open) + {accepted}
      ensures os.refusals == old(os.refusals) + if fd != INVALID && accepted == INVALID then 1 else 0
    {
      if fd == INVALID {
        return INVALID;
      }
      var readable := os.Succeeds();
      if !readable {
        return INVALID;
      }
      accepted := os.Open();
      if accepted == INVALID {
        return;
      }
      var configured := os.Succeeds();
      if !configured {
        var _ := os.Close(accepted);
        return INVALID;
      }
    }
  }

  // ----- a program ---------------------------------------------------------

  /** What a program asks of one object. */
  datatype Call =
    | Disconnect
    | SelectDestination(targets: seq<Endpoint>)
    | BindDatagrams(port: int)
    | Connect(target: Endpoint)
    | ListenOn(where: Endpoint, port: int)

  datatype Op =
    | NewSocket(newFamily: Family)
    | NewPeer(peer: Endpoint)
    | Use(i: nat, call: Call)
    | Accept(i: nat, from: Endpoint)
    | Destroy(i: nat)

  lemma HeldBySomeone(open: set<int>, owner: map<int, Socket>, live: seq<Socket>)
    requires forall n :: n in open ==> n in owner && owner[n] in live
    ensures open != {} ==> |live| > 0
  {
    forall n | n in open
      ensures |live| > 0
    {
      assert owner[n] in live;
    }
  }

  /** Any program over these objects. */
  class Program {
    const os: Os
    var live: seq<Socket>
    ghost var owner: map<int, Socket>
    ghost var executed: seq<Op>

    /** The open descriptors are exactly those held by live objects, one holder each; no
        logical peer holds one. */
    ghost predicate Balanced()
      reads this, os, live
    {
      && os.Valid()
      && (forall j, k :: 0 <= j < k < |live| ==> live[j] != live[k])
      && owner.Keys == os.open
      && (forall n :: n in owner ==> owner[n] in live && owner[n].fd == n)
      && (forall s :: s in live && s.fd != INVALID ==> s.fd in owner && owner[s.fd] == s && !s.logical)
    }

    constructor ()
      ensures Balanced() && fresh(os) && live == [] && os.open == {}
    {
      os := new Os();
      live := [];
      owner, executed := map[], [];
    }

    /** Book-keeping after an operation on one live object: what it holds now is its. */
    ghost method Settle(s: Socket, before: map<int, Socket>, held: int)
      requires s in live && s.Owns(os)
      requires forall j, k :: 0 <= j < k < |live| ==> live[j] != live[k]
      requires os.open - s.Held() == before.Keys - {held} && (held in before ==> before[held] == s)
      requires forall n :: n in before && n != held ==> before[n] in live && before[n] != s && before[n].fd == n
      requires forall o :: o in live && o != s && o.fd != INVALID ==> o.fd in before && before[o.fd] == o && !o.logical
      requires s.logical ==> s.fd == INVALID
      modifies this`owner
      ensures Balanced()
    {
      var others := before - {held};
      owner := if s.fd == INVALID then others else others[s.fd := s];
      assert owner.Keys == os.open;
    }

    method Add(s: Socket)
      requires s !in live && s.Owns(os) && (s.fd == INVALID || (s.fd !in owner && !s.logical))
      requires forall j, k :: 0 <= j < k < |live| ==> live[j] != live[k]
      requires os.open - s.Held() == owner.Keys
      requires forall n :: n in owner ==> owner[n] in live && owner[n].fd == n
      requires forall o :: o in live && o.fd != INVALID ==> o.fd in owner && owner[o.fd] == o && !o.logical
      modifies this`live, this`owner
      ensures Balanced() && live == old(live) + [s]
    {
      live := live + [s];
      if s.fd != INVALID {
        owner := owner[s.fd := s];
      }
      assert owner.Keys == os.open;
    }

    method Create(family: Family)
      requires Balanced()
      modifies this`live, this`owner, os
      ensures Balanced() && |live| == |old(live)| + 1 && live[..|old(live)|] == old(live) && fresh(live[|old(live)|])
      ensures !live[|old(live)|].logical
      ensures os.refusals == old(os.refusals) + if live[|old(live)|].fd == INVALID then 1 else 0
    {
      var s := new Socket.Native(os, family);
      Add(s);
    }

    method CreatePeer(peer: Endpoint)
      requires Balanced()
      modifies this`live, this`owner
      ensures Balanced() && |live| == |old(live)| + 1 && live[..|old(live)|] == old(live) && fresh(live[|old(live)|])
      ensures live[|old(live)|].logical && live[|old(live)|].remote == peer
    {
      var s := new Socket.Logical(peer);
      Add(s);
    }

    /** What a call leaves behind, by its answer. */
    ghost predicate Achieved(s: Socket, call: Call, ok: bool)
      reads s
    {
      match call
      case Disconnect => s.fd == INVALID
      case SelectDestination(targets) => ok ==> s.fd != INVALID && s.remote in targets && s.connected
      case BindDatagrams(port) => ok ==> s.fd != INVALID && s.port == port && !s.connected && s.remote.Unspecified?
      case Connect(target) => ok ==> s.fd != INVALID && s.remote == target && s.connected
      case ListenOn(_, port) => ok ==> s.fd != INVALID && s.port == port && s.connected
    }

    /** The call names something to do. */
    predicate Sensible(call: Call) {
      match call
      case Disconnect => true
      case SelectDestination(targets) => Known(targets) > 0
      case BindDatagrams(port) => ValidPort(port)
      case Connect(target) => !target.Unspecified?
      case ListenOn(where, port) => !where.Unspecified? && ValidPort(port)
    }

    /** Operations on an object that stays alive; a logical peer offers only close.  A
        sensible call on another object fails only if the system refuses something. */
    method Perform(s: Socket, call: Call) returns (ok: bool)
      requires Balanced() && s in live
      modifies os, s, this`owner
      ensures Balanced()
      ensures s.logical && !call.Disconnect? ==> !ok && s.Unchanged(os)
      ensures !s.logical || call.Disconnect? ==> Achieved(s, call, ok)
      ensures !ok && !s.logical && !call.Disconnect? && Sensible(call) ==> os.refusals > old(os.refusals)
    {
      if s.logical && !call.Disconnect? {
        return false;
      }
      ghost var before, held := owner, s.fd;
      match call {
        case Disconnect => ok := s.Close(os);
        case SelectDestination(targets) => ok := s.UdpConnectByName(os, targets);
        case BindDatagrams(port) => ok := s.UdpListen(os, port);
        case Connect(target) => ok := s.TcpConnect(os, target);
        case ListenOn(where, port) => ok := s.TcpListen(os, where, port);
      }
      Settle(s, before, held);
    }

    /** An accepted descriptor is adopted at once; if the new object cannot be set up it
        is destroyed again. */
    method AcceptOn(listener: Socket, from: Endpoint) returns (peer: Socket?)
      requires Balanced() && listener in live
      modifies this`live, this`owner, os
      ensures Balanced()
      ensures peer == null ==> live == old(live) && os.open == old(os.open)
      ensures peer != null ==> live == old(live) + [peer] && fresh(peer) && peer.fd !in old(os.open)
                               && peer.fd != INVALID && peer.remote == from
      ensures peer == null && old(listener.fd) != INVALID ==> os.refusals > old(os.refusals)
    {
      hide Os.Valid;
      var accepted := listener.TcpAccept(os);
      if accepted == INVALID {
        return null;
      }
      peer := Adopted(accepted, from);
      if peer != null {
        Add(peer);
      }
    }

    /** A new object around an accepted descriptor, or neither. */
    method Adopted(accepted: int, from: Endpoint) returns (peer: Socket?)
      requires os.Valid() && accepted in os.open && accepted != INVALID
      modifies os
      ensures os.Valid()
      ensures peer == null ==> os.open == old(os.open) - {accepted} && os.refusals > old(os.refusals)
      ensures peer != null ==> fresh(peer) && peer.Owns(os) && peer.fd == accepted
      ensures peer != null ==> peer.remote == from && !peer.logical && os.open == old(os.open)
    {
      peer := new Socket.Adopt(os, accepted, from);
      var usable := os.Succeeds();
      if !usable {
        var _ := peer.Close(os);
        peer := null;
      }
    }

    /** The destructor closes what the object still holds. */
    method DestroyAt(i: nat)
      requires Balanced() && i < |live|
      modifies this`live, this`owner, os, live
      ensures Balanced() && live == old(live[..i] + live[i + 1..])
    {
      var s := live[i];
      ghost var before, held := owner, s.fd;
      var _ := s.Close(os);
      Settle(s, before, held);
      Forget(i);
    }

    /** An object without a descriptor can go. */
    method Forget(i: nat)
      requires Balanced() && i < |live| && live[i].fd == INVALID
      modifies this`live
      ensures Balanced() && live == old(live[..i] + live[i + 1..])
    {
      ghost var gone := live[i];
      assert forall k :: 0 <= k < |live| && k != i ==> live[k] != gone;
      live := live[..i] + live[i + 1..];
    }

    /** One operation of the program; what it names beyond the live objects is ignored. */
    method Execute(op: Op)
      requires Balanced()
      modifies this, os, live
      ensures Balanced() && forall j :: 0 <= j < |live| ==> live[j] in old(live) || fresh(live[j])
      ensures executed == old(executed) + [op]
      ensures op.NewSocket? || op.NewPeer? ==>
                |live| == |old(live)| + 1 && old(live) <= live && (live[|old(live)|].logical <==> op.NewPeer?)
      ensures op.Use? ==> live == old(live)
      ensures op.Use? && op.i < |live| && !(live[op.i].logical && !op.call.Disconnect?) ==>
                exists ok :: Achieved(live[op.i], op.call, ok) &&
                             (!ok && !op.call.Disconnect? && Sensible(op.call) ==> os.refusals > old(os.refusals))
      ensures op.Accept? ==> old(live) <= live && |live| <= |old(live)| + 1
      ensures op.Destroy? ==>
                live == if op.i < |old(live)| then old(live)[..op.i] + old(live)[op.i + 1..] else old(live)
    {
      executed := executed + [op];
      match op {
        case NewSocket(family) =>
          Create(family);
        case NewPeer(peer) =>
          CreatePeer(peer);
        case Accept(i, from) =>
          if i < |live| {
            var _ := AcceptOn(live[i], from);
          }
        case Destroy(i) =>
          if i < |live| {
            DestroyAt(i);
          }
        case Use(i, call) =>
          if i < |live| {
            var ok := Perform(live[i], call);
            assert (live[i].logical && !call.Disconnect?) || Achieved(live[i], call, ok);
          }
      }
    }

    /** However a program uses its sockets and whatever the system answers, the open
        descriptors are those its live objects hold; once every object is destroyed,
        each opening has been matched by exactly one closing. */
    method RunAndExit(ops: seq<Op>)
      requires Balanced()
      modifies this, os, live
      ensures Balanced() && live == [] && os.open == {} && os.openings == os.closings
      ensures executed == old(executed) + ops
    {
      var k := 0;
      while k < |ops|
        invariant Balanced() && k <= |ops| && executed == old(executed) + ops[..k]
        invariant forall j :: 0 <= j < |live| ==> live[j] in old(live) || fresh(live[j])
      {
        Execute(ops[k]);
        assert ops[..k + 1] == ops[..k] + [ops[k]];
        k := k + 1;
      }
      assert ops[..|ops|] == ops;
      while |live| > 0
        invariant Balanced() && executed == old(executed) + ops
        invariant forall j :: 0 <= j < |live| ==> live[j] in old(live) || fresh(live[j])
      {
        DestroyAt(0);
      }
      HeldBySomeone(os.open, owner, live);
    }
  }
}
