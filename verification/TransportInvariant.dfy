/** What holds of an event socket after any run of operations, against every
    oracle. */
module TransportInvariant {
  import opened Bytes
  import opened WriteQueue
  import opened Transport

  /** The SSL_write calls of a session, oldest first. */
  function Writes(log: seq<SslEvent>): seq<Write> {
    if log == [] then []
    else
      var before := Writes(log[..|log| - 1]);
      match log[|log| - 1]
      case WriteCall(w) => before + [w]
      case _ => before
  }

  /** The queued plaintext OpenSSL took, in call order. */
  function QueuedPlaintext(ws: seq<Write>): seq<byte> {
    if ws == [] then []
    else
      var before := QueuedPlaintext(ws[..|ws| - 1]);
      var w := ws[|ws| - 1];
      if w.queued && w.taken <= |w.data| then before + w.data[..w.taken] else before
  }

  /** The queued octets send(2) took, in call order; it never takes more than it is shown. */
  function SystemTook(log: seq<SslEvent>): seq<byte> {
    if log == [] then []
    else
      var before := SystemTook(log[..|log| - 1]);
      match log[|log| - 1]
      case SendCall(data, queued, sent, _) =>
        if queued && 0 < sent <= |data| then before + data[..sent] else before
      case _ => before
  }

  ghost predicate HasShutdown(log: seq<SslEvent>) {
    exists i :: 0 <= i < |log| && log[i].ShutdownCall?
  }

  /** OpenSSL has reported the peer's close_notify. */
  predicate ShowsPeerClose(e: SslEvent) {
    match e
    case ReadCall(a, _) => a.ZeroReturn?
    case ShutdownCall(_, a, _) => a.Done? && a.count != 0
    case _ => false
  }

  ghost predicate PeerCloseSeen(log: seq<SslEvent>) {
    exists i :: 0 <= i < |log| && ShowsPeerClose(log[i])
  }

  /** again is an acceptable repetition of a blocked write: same kind and length,
      same digest, and for queued data the very same octets. */
  predicate Repeats(blocked: Write, again: Write) {
    && again.queued == blocked.queued
    && |again.data| == |blocked.data|
    && Digest(again.data) == Digest(blocked.data)
    && (blocked.queued ==> again.data == blocked.data)
  }

  ghost predicate RetrySafe(ws: seq<Write>) {
    forall i, j :: 0 <= i < j < |ws| && j == i + 1 && ws[i].blocked ==> Repeats(ws[i], ws[j])
  }

  /** A direct write that finds queued bytes outstanding is the repetition of a
      direct write that did not: it never starts ahead of them. */
  ghost predicate DirectInOrder(ws: seq<Write>) {
    && (ws != [] && !ws[0].queued ==> ws[0].outstanding == 0)
    && forall i, j :: 0 <= i < j < |ws| && j == i + 1 && !ws[j].queued ==>
         ws[j].outstanding == 0 || (!ws[i].queued && ws[i].blocked)
  }

  ghost predicate Bounded(ws: seq<Write>) {
    forall i :: 0 <= i < |ws| ==>
      0 < |ws[i].data| && ws[i].taken <= |ws[i].data| && (ws[i].blocked ==> ws[i].taken == 0)
  }

  ghost predicate NoWriteAfterShutdown(log: seq<SslEvent>) {
    forall i, j :: 0 <= i < j < |log| && log[i].ShutdownCall? ==> !log[j].WriteCall?
  }

  // ----- the invariant, one concern at a time ------------------------------

  ghost predicate Accounted(k: Sock)
    requires Valid(k.q)
  {
    k.accepted == Octets(k.fates) + Pending(k.q)
  }

  /** How the flags of a session constrain one another. */
  predicate SessionShape(s: Session) {
    && (s.ready ==> s.live)
    && (s.needWrite ==> s.live && !s.ready)
    && (!s.ready ==>
          s.pendingLen == 0 && !s.recvNeedWrite && !s.peerNotified && !s.shutRequested)
    && (!s.shutRequested ==> !s.shutSent && !s.shutNeedRead && !s.shutNeedWrite && !s.peerNotified)
    && !(s.shutNeedRead && s.shutNeedWrite)
    && (s.pendingQueued ==> 0 < s.pendingLen <= SEND_BUDGET)
    && (s.sendNeedRead ==> s.pendingLen != 0)
  }

  ghost predicate Shape(k: Sock) {
    && SessionShape(k.s)
    && (!k.tls ==> !k.s.live)
    && (forall i :: 0 <= i < |k.log| ==> (k.log[i].SendCall? <==> !k.tls))
    && (k.s.live ==> k.valid)
    && (k.s.peerNotified ==> PeerCloseSeen(k.log))
  }

  /** The retry fields remember exactly the last write, if that one is blocked;
      a blocked queued write still sits at the front of the queue. */
  ghost predicate RetryRemembered(k: Sock) {
    var ws := Writes(k.log);
    if k.s.pendingLen == 0 then ws == [] || !ws[|ws| - 1].blocked
    else
      && ws != []
      && var w := ws[|ws| - 1];
      && w.blocked && |w.data| == k.s.pendingLen && w.queued == k.s.pendingQueued
      && Digest(w.data) == k.s.pendingHash
      && (w.queued ==>
            k.q.chunks != [] && k.q.frontOffset + |w.data| <= |k.q.chunks[0]| &&
            k.q.chunks[0][k.q.frontOffset..k.q.frontOffset + |w.data|] == w.data)
  }

  ghost predicate LogSafe(log: seq<SslEvent>) {
    var ws := Writes(log);
    RetrySafe(ws) && DirectInOrder(ws) && Bounded(ws) && NoWriteAfterShutdown(log)
  }

  ghost predicate ShutdownQuiet(k: Sock) {
    k.s.live && HasShutdown(k.log) ==> k.s.shutRequested && k.q.bytes == 0
  }

  ghost predicate PlaintextMatches(k: Sock) {
    WrittenOctets(k.fates) == if k.tls then QueuedPlaintext(Writes(k.log)) else SystemTook(k.log)
  }

  /** Until a flush fails, an open socket gives up no accepted byte. */
  ghost predicate Lossless(k: Sock) {
    k.failures == 0 && k.valid ==> WrittenOctets(k.fates) == Octets(k.fates)
  }

  ghost predicate Inv(k: Sock) {
    && Valid(k.q)
    && Accounted(k)
    && Shape(k)
    && (k.s.live ==> RetryRemembered(k))
    && LogSafe(k.log)
    && ShutdownQuiet(k)
    && PlaintextMatches(k)
    && Lossless(k)
  }

  lemma InvIsValid(k: Sock)
    requires Inv(k)
    ensures Valid(k.q)
  {
  }

  // ----- appending to a log ------------------------------------------------

  lemma WritesSnoc(log: seq<SslEvent>, e: SslEvent)
    ensures Writes(log + [e]) == if e.WriteCall? then Writes(log) + [e.w] else Writes(log)
  {
    assert (log + [e])[..|log|] == log;
  }

  lemma SystemTookSnoc(log: seq<SslEvent>, e: SslEvent)
    ensures SystemTook(log + [e])
         == SystemTook(log) + (if e.SendCall? && e.queued && 0 < e.sent <= |e.data| then e.data[..e.sent] else [])
  {
    assert (log + [e])[..|log|] == log;
  }

  lemma QueuedSnoc(ws: seq<Write>, w: Write)
    ensures QueuedPlaintext(ws + [w])
         == QueuedPlaintext(ws) + (if w.queued && w.taken <= |w.data| then w.data[..w.taken] else [])
  {
    assert (ws + [w])[..|ws|] == ws;
  }

  lemma {:induction false} WrittenAppend(fates: seq<Fate>, data: seq<byte>)
    ensures WrittenOctets(fates + AsWritten(data)) == WrittenOctets(fates) + data
    decreases |data|
  {
    if data == [] {
      assert fates + AsWritten(data) == fates;
    } else {
      var n := |data| - 1;
      WrittenAppend(fates, data[..n]);
      assert (fates + AsWritten(data))[..|fates| + n] == fates + AsWritten(data[..n]);
      assert data == data[..n] + [data[n]];
    }
  }

  lemma {:induction false} DiscardedAppend(fates: seq<Fate>, data: seq<byte>)
    ensures WrittenOctets(fates + AsDiscarded(data)) == WrittenOctets(fates)
    decreases |data|
  {
    if data == [] {
      assert fates + AsDiscarded(data) == fates;
    } else {
      var n := |data| - 1;
      DiscardedAppend(fates, data[..n]);
      assert (fates + AsDiscarded(data))[..|fates| + n] == fates + AsDiscarded(data[..n]);
    }
  }

  lemma PeerCloseStaysSeen(log: seq<SslEvent>, e: SslEvent)
    requires PeerCloseSeen(log)
    ensures PeerCloseSeen(log + [e])
  {
    hide ShowsPeerClose;
    var i :| 0 <= i < |log| && ShowsPeerClose(log[i]);
    assert ShowsPeerClose((log + [e])[i]);
  }

  lemma ShutdownSnoc(log: seq<SslEvent>, e: SslEvent)
    ensures HasShutdown(log + [e]) <==> HasShutdown(log) || e.ShutdownCall?
  {
    var log' := log + [e];
    assert forall i :: 0 <= i < |log| ==> log'[i] == log[i];
    assert log'[|log|] == e;
  }

  /** A call that is not a write never spoils a log. */
  lemma QuietLog(log: seq<SslEvent>, e: SslEvent)
    requires LogSafe(log) && !e.WriteCall?
    ensures LogSafe(log + [e]) && Writes(log + [e]) == Writes(log)
  {
    hide RetrySafe, DirectInOrder, Bounded;
    WritesSnoc(log, e);
    assert forall i :: 0 <= i < |log| ==> (log + [e])[i] == log[i];
  }

  lemma WritesStaySafe(ws: seq<Write>, w: Write)
    requires RetrySafe(ws) && DirectInOrder(ws) && Bounded(ws)
    requires ws != [] && ws[|ws| - 1].blocked ==> Repeats(ws[|ws| - 1], w)
    requires !w.queued ==> w.outstanding == 0 || (ws != [] && !ws[|ws| - 1].queued && ws[|ws| - 1].blocked)
    requires 0 < |w.data| && w.taken <= |w.data| && (w.blocked ==> w.taken == 0)
    ensures RetrySafe(ws + [w]) && DirectInOrder(ws + [w]) && Bounded(ws + [w])
  {
    hide Repeats;
  }

  lemma WrittenLog(log: seq<SslEvent>, w: Write)
    requires LogSafe(log) && !HasShutdown(log)
    requires var ws := Writes(log);
             && (ws != [] && ws[|ws| - 1].blocked ==> Repeats(ws[|ws| - 1], w))
             && (!w.queued ==> w.outstanding == 0 || (ws != [] && !ws[|ws| - 1].queued && ws[|ws| - 1].blocked))
    requires 0 < |w.data| && w.taken <= |w.data| && (w.blocked ==> w.taken == 0)
    ensures LogSafe(log + [WriteCall(w)]) && Writes(log + [WriteCall(w)]) == Writes(log) + [w]
  {
    hide RetrySafe, DirectInOrder, Bounded, Repeats;
    WritesSnoc(log, WriteCall(w));
    WritesStaySafe(Writes(log), w);
    assert forall i :: 0 <= i < |log| ==> (log + [WriteCall(w)])[i] == log[i];
  }

  // ----- dropping the queue ------------------------------------------------

  lemma OctetsAppend(a: seq<Fate>, data: seq<byte>)
    ensures Octets(a + AsWritten(data)) == Octets(a) + data
    ensures Octets(a + AsDiscarded(data)) == Octets(a) + data
  {
  }

  lemma DropSettles(k: Sock)
    requires Valid(k.q) && Accounted(k)
    ensures var d := Drop(k); Valid(d.q) && d.q.bytes == 0 && Pending(d.q) == [] && Accounted(d)
    ensures WrittenOctets(Drop(k).fates) == WrittenOctets(k.fates)
  {
    hide AsDiscarded, Octets, WrittenOctets;
    DiscardedAppend(k.fates, Pending(k.q));
    OctetsAppend(k.fates, Pending(k.q));
  }

  /** Nothing waiting to be repeated is lost with the queue. */
  lemma AbandonKeeps(k: Sock)
    requires Inv(k) && !k.s.pendingQueued
    ensures Inv(Abandon(k))
  {
    hide Valid, Pending, Flat, AsDiscarded, Octets, WrittenOctets, Writes, QueuedPlaintext, LogSafe, HasShutdown,
         PeerCloseSeen;
    DropSettles(k);
  }

  // ----- queue_write -------------------------------------------------------

  lemma QueueWriteKeeps(k: Sock, data: seq<byte>)
    requires Inv(k)
    ensures Inv(QueueWrite(k, data).k)
  {
    hide Valid, Flat, Pending, Octets, WrittenOctets, Writes, QueuedPlaintext, LogSafe, HasShutdown, PeerCloseSeen,
         Push;
    var r := QueueWrite(k, data);
    if r.k != k {
      PushAppends(k.q, data);
      assert Octets(k.fates) + Pending(k.q) + data == Octets(k.fates) + (Pending(k.q) + data);
      assert Accounted(r.k);
      if k.s.live && k.s.pendingLen != 0 && k.s.pendingQueued {
        FrontSurvivesPush(k.q, data, k.s.pendingLen);
      }
    }
  }

  lemma FrontSurvivesPush(q: Queue, data: seq<byte>, count: nat)
    requires Valid(q) && q.chunks != [] && q.frontOffset + count <= |q.chunks[0]|
    ensures var c := Push(q, data).chunks;
            && Push(q, data).frontOffset == q.frontOffset
            && c != [] && q.frontOffset + count <= |c[0]|
            && c[0][q.frontOffset..q.frontOffset + count] == q.chunks[0][q.frontOffset..q.frontOffset + count]
  {
    hide Flat, Coalesced;
    PushKeepsFront(q, data, count);
  }

  lemma SetLimitKeeps(k: Sock, limit: nat)
    requires Inv(k)
    ensures Inv(SetMaxQueuedBytes(k, limit).k)
  {
    hide Flat, Octets, WrittenOctets, Writes, QueuedPlaintext, LogSafe, HasShutdown, PeerCloseSeen, Coalesced;
    var r := SetMaxQueuedBytes(k, limit);
    assert Pending(r.k.q) == Pending(k.q);
  }

  // ----- sending -----------------------------------------------------------

  /** data is at the front of the queue. */
  ghost predicate FrontIs(q: Queue, data: seq<byte>) {
    && q.chunks != []
    && q.frontOffset + |data| <= |q.chunks[0]|
    && q.chunks[0][q.frontOffset..q.frontOffset + |data|] == data
  }

  lemma FrontPrefix(q: Queue, data: seq<byte>, n: nat)
    requires FrontIs(q, data) && n <= |data|
    ensures FrontIs(q, data[..n]) && q.chunks[0][q.frontOffset..q.frontOffset + n] == data[..n]
  {
  }

  /** plain is what send_tls may show to SSL_write in state k. */
  ghost predicate MayPresent(k: Sock, plain: seq<byte>, queued: bool) {
    && k.tls && k.s.live && k.s.ready && plain != []
    && (queued ==> FrontIs(k.q, plain) && k.q.bytes != 0 && |plain| <= SEND_BUDGET)
    && (!queued ==> !k.s.shutRequested && (k.s.pendingLen != 0 || k.q.bytes == 0))
    && (k.s.pendingLen != 0 ==>
          var ws := Writes(k.log);
          && ws != []
          && queued == k.s.pendingQueued
          && |plain| == k.s.pendingLen
          && Digest(plain) == k.s.pendingHash
          && (queued ==> plain == ws[|ws| - 1].data))
  }

  /** One more SSL_write keeps the log's promises. */
  lemma WriteLogged(k: Sock, plain: seq<byte>, queued: bool, o: Oracle)
    requires LogSafe(k.log) && ShutdownQuiet(k) && RetryRemembered(k) && MayPresent(k, plain, queued)
    ensures var w := WriteMade(k, plain, queued, o);
            && !HasShutdown(k.log)
            && LogSafe(k.log + [WriteCall(w)]) && Writes(k.log + [WriteCall(w)]) == Writes(k.log) + [w]
  {
    hide LogSafe, HasShutdown, Writes, Digest;
    WrittenLog(k.log, WriteMade(k, plain, queued, o));
  }

  /** The state SSL_write leaves, before the queue is told what was taken. */
  lemma SslWriteLogs(k: Sock, plain: seq<byte>, queued: bool, o: Oracle)
    requires Shape(k) && LogSafe(k.log) && ShutdownQuiet(k) && RetryRemembered(k) && MayPresent(k, plain, queued)
    ensures var r := SslWrite(k, plain, queued, o);
            Shape(r.k) && RetryRemembered(r.k) && LogSafe(r.k.log) && ShutdownQuiet(r.k)
  {
    hide LogSafe, HasShutdown, Writes, Digest, PeerCloseSeen;
    WriteLogged(k, plain, queued, o);
    var w := WriteMade(k, plain, queued, o);
    ShutdownSnoc(k.log, WriteCall(w));
    if k.s.peerNotified {
      PeerCloseStaysSeen(k.log, WriteCall(w));
    }
  }

  lemma SslWritePlaintext(k: Sock, plain: seq<byte>, queued: bool, o: Oracle)
    requires plain != []
    ensures var r := SslWrite(k, plain, queued, o);
            && r.count <= |plain| && r.count != 0
            && QueuedPlaintext(Writes(r.k.log))
               == QueuedPlaintext(Writes(k.log)) + (if queued && r.count > 0 then plain[..r.count] else [])
  {
    hide Writes, QueuedPlaintext, AfterWrite;
    var w := WriteMade(k, plain, queued, o);
    WritesSnoc(k.log, WriteCall(w));
    QueuedSnoc(Writes(k.log), w);
  }

  /** The queue gives up what SSL_write or send took, and the account follows. */
  lemma TookSettles(k: Sock, count: nat)
    requires Valid(k.q) && Accounted(k)
    requires k.q.chunks != [] && 0 < count && k.q.frontOffset + count <= |k.q.chunks[0]|
    ensures count <= k.q.bytes
    ensures var t := Took(k, count);
            var part := k.q.chunks[0][k.q.frontOffset..k.q.frontOffset + count];
            && Valid(t.q) && Accounted(t)
            && WrittenOctets(t.fates) == WrittenOctets(k.fates) + part
            && Octets(t.fates) == Octets(k.fates) + part
            && Pending(k.q) == part + Pending(t.q)
            && part == Pending(k.q)[..count]
            && t.q.bytes < k.q.bytes
  {
    hide Flat, Coalesced, WrittenOctets, AsWritten, Octets;
    ConsumeRemoves(k.q, count);
    OfferIsOldest(k.q, count);
    var part := k.q.chunks[0][k.q.frontOffset..k.q.frontOffset + count];
    WrittenAppend(k.fates, part);
    OctetsAppend(k.fates, part);
  }

  /** SSL_write keeps the invariant, unless queued bytes went out. */
  lemma SslWriteKeeps(k: Sock, plain: seq<byte>, queued: bool, o: Oracle)
    requires Inv(k) && MayPresent(k, plain, queued)
    ensures var r := SslWrite(k, plain, queued, o);
            && r.count != 0 && r.count <= |plain|
            && (r.count < 0 || !queued ==> Inv(r.k))
            && (r.count < 0 ==> r.errno == WouldBlock || (r.errno == Broken && !r.k.s.pendingQueued))
            && (r.count > 0 ==> !r.k.s.pendingQueued)
  {
    hide Valid, Pending, Flat, LogSafe, HasShutdown, Writes, QueuedPlaintext, WrittenOctets, Octets,
         Digest, PeerCloseSeen;
    SslWriteLogs(k, plain, queued, o);
    SslWritePlaintext(k, plain, queued, o);
    SslWriteFrame(k, plain, queued, o);
    assert Accounted(SslWrite(k, plain, queued, o).k);
  }

  /** Queued bytes that went out leave the queue and enter the account. */
  lemma SslTookKeeps(k: Sock, plain: seq<byte>, o: Oracle)
    requires Inv(k) && MayPresent(k, plain, true) && SslWrite(k, plain, true, o).count > 0
    ensures var r := SslWrite(k, plain, true, o);
            r.count <= |plain| && r.count <= k.q.bytes && Inv(Took(r.k, r.count))
  {
    hide Valid, Pending, Flat, LogSafe, HasShutdown, Writes, QueuedPlaintext, WrittenOctets, Octets,
         Digest, PeerCloseSeen, Took;
    SslWriteLogs(k, plain, true, o);
    SslWritePlaintext(k, plain, true, o);
    SslWriteFrame(k, plain, true, o);
    var r := SslWrite(k, plain, true, o);
    assert Accounted(r.k);
    TookSettles(r.k, r.count);
    TookOnlyQueue(r.k, r.count);
    FrontPrefix(k.q, plain, r.count);
  }

  lemma TookOnlyQueue(k: Sock, count: nat)
    requires k.q.chunks != [] && k.q.frontOffset + count <= |k.q.chunks[0]| && count <= k.q.bytes
    ensures Took(k, count) == k.(q := Took(k, count).q, fates := Took(k, count).fates)
  {
  }

  /** The check made before a queued retry never fails: what flush_queued offers
      starts with the octets the blocked write presented. */
  lemma QueuedRetryMatches(k: Sock, data: seq<byte>)
    requires RetryRemembered(k) && k.s.pendingLen != 0 && k.s.pendingQueued
    requires FrontIs(k.q, data) && |data| >= k.s.pendingLen
    ensures RetryMatches(k.s, data, true)
    ensures data[..k.s.pendingLen] == Writes(k.log)[|Writes(k.log)| - 1].data
  {
    hide Writes, Digest;
    var w := Writes(k.log)[|Writes(k.log)| - 1];
    assert data[..k.s.pendingLen] == w.data;
  }

  lemma DirectWriteKeeps(k: Sock, data: seq<byte>, o: Oracle)
    requires Inv(k)
    ensures Inv(DirectWrite(k, data, o).k)
  {
    hide Valid, Pending, Flat, LogSafe, HasShutdown, Writes, QueuedPlaintext, WrittenOctets, Octets,
         Digest, PeerCloseSeen, SslWrite;
    var r := DirectWrite(k, data, o);
    if r.k != k {
      if k.tls {
        SslWriteKeeps(k, if k.s.pendingLen != 0 then data[..k.s.pendingLen] else data, false, o);
      } else {
        PlainSendKeeps(k, data, false, o);
      }
    }
  }

  // ----- flush_queued ------------------------------------------------------

  /** The offer is at least as long as a blocked queued write: every flush starts
      with the whole budget, and a later write of a flush has nothing to repeat. */
  ghost predicate Enough(k: Sock, size: nat) {
    k.s.pendingQueued ==> k.s.pendingLen <= size
  }

  lemma OfferedKeeps(k: Sock, plain: seq<byte>, o: Oracle)
    requires Inv(k) && MayPresent(k, plain, true)
    ensures var r := SslWrite(k, plain, true, o);
            && r.count != 0 && r.count <= |plain|
            && (r.count < 0 ==> Inv(r.k) && (r.errno == WouldBlock || (r.errno == Broken && !r.k.s.pendingQueued)))
            && (r.count > 0 ==> r.count <= k.q.bytes && Inv(Took(r.k, r.count)) && !r.k.s.pendingQueued)
  {
    hide Inv, Took;
    SslWriteKeeps(k, plain, true, o);
    if SslWrite(k, plain, true, o).count > 0 {
      SslTookKeeps(k, plain, o);
    }
  }

  lemma TlsOfferKeeps(k: Sock, data: seq<byte>, o: Oracle)
    requires Inv(k) && k.tls && data != [] && FrontIs(k.q, data) && |data| <= SEND_BUDGET && k.q.bytes != 0
    requires Enough(k, |data|)
    ensures var r := SendTls(k, data, true, o);
            && r.count != 0 && r.count <= |data|
            && (r.count < 0 ==> Inv(r.k) && (r.errno == WouldBlock || (r.errno == Broken && !r.k.s.pendingQueued)))
            && (r.count > 0 ==> r.count <= k.q.bytes && Inv(Took(r.k, r.count)) && !r.k.s.pendingQueued)
  {
    hide Valid, Pending, Flat, LogSafe, HasShutdown, Writes, QueuedPlaintext, WrittenOctets, Octets,
         Digest, PeerCloseSeen, SslWrite, Took, RetryMatches;
    if k.s.ready && !(k.s.pendingLen != 0 && !k.s.pendingQueued) {
      if k.s.pendingLen != 0 {
        QueuedRetryMatches(k, data);
        FrontPrefix(k.q, data, k.s.pendingLen);
        OfferedKeeps(k, data[..k.s.pendingLen], o);
      } else {
        OfferedKeeps(k, data, o);
      }
    }
  }

  /** A send(2) that takes no queued octet keeps the invariant. */
  lemma PlainSendKeeps(k: Sock, data: seq<byte>, queued: bool, o: Oracle)
    requires Inv(k) && !k.tls
    ensures var r := PlainSend(k, data, queued, o);
            !queued || !(0 < r.count <= |data|) ==> Inv(r.k)
  {
    hide Valid, Pending, Flat, LogSafe, HasShutdown, Writes, QueuedPlaintext, SystemTook, WrittenOctets, Octets,
         SessionShape;
    var r := PlainSend(k, data, queued, o);
    SystemTookSnoc(k.log, SendCall(data, queued, o(k.calls).sent, o(k.calls).errno));
    QuietLog(k.log, SendCall(data, queued, o(k.calls).sent, o(k.calls).errno));
    assert Accounted(r.k);
    assert SessionShape(k.s) ==> !k.s.peerNotified by { SessionEndsQuiet(k.s); }
  }

  lemma SessionEndsQuiet(s: Session)
    requires !s.live
    ensures SessionShape(s) ==> !s.peerNotified && s.pendingLen == 0 && !s.pendingQueued
  {
  }

  /** What send(2) takes of the queue leaves it and enters the account. */
  lemma PlainTookKeeps(k: Sock, data: seq<byte>, o: Oracle)
    requires Inv(k) && !k.tls && FrontIs(k.q, data) && 0 < PlainSend(k, data, true, o).count <= |data|
    ensures var r := PlainSend(k, data, true, o); r.count <= k.q.bytes && Inv(Took(r.k, r.count))
  {
    hide Valid, Pending, Flat, LogSafe, HasShutdown, Writes, QueuedPlaintext, SystemTook, WrittenOctets, Octets, Took,
         SessionShape;
    var r := PlainSend(k, data, true, o);
    SystemTookSnoc(k.log, SendCall(data, true, o(k.calls).sent, o(k.calls).errno));
    QuietLog(k.log, SendCall(data, true, o(k.calls).sent, o(k.calls).errno));
    assert Accounted(r.k);
    TookSettles(r.k, r.count);
    TookOnlyQueue(r.k, r.count);
    FrontPrefix(k.q, data, r.count);
    assert SessionShape(k.s) ==> !k.s.peerNotified by { SessionEndsQuiet(k.s); }
  }

  lemma PlainOfferKeeps(k: Sock, data: seq<byte>, o: Oracle)
    requires Inv(k) && !k.tls && FrontIs(k.q, data) && data != []
    ensures var r := PlainSend(k, data, true, o);
            && !r.k.s.pendingQueued
            && (0 < r.count <= |data| ==> r.count <= k.q.bytes && Inv(Took(r.k, r.count)))
            && (!(0 < r.count <= |data|) ==> Inv(r.k))
  {
    hide Valid, LogSafe, Took, Accounted, RetryRemembered, PlaintextMatches, ShutdownQuiet;
    if 0 < PlainSend(k, data, true, o).count <= |data| {
      PlainTookKeeps(k, data, o);
    } else {
      PlainSendKeeps(k, data, true, o);
    }
  }

  /** One offer, whatever the transport. */
  lemma OfferKeeps(k: Sock, data: seq<byte>, o: Oracle)
    requires Inv(k) && data != [] && FrontIs(k.q, data) && |data| <= SEND_BUDGET && k.q.bytes != 0
    requires Enough(k, |data|)
    ensures var r := PollSendQueued(k, data, o);
            && (r.count <= 0 ==> Inv(r.k))
            && (r.count > |data| ==> Inv(r.k) && !r.k.s.pendingQueued)
            && (r.count < 0 ==> r.errno == WouldBlock || !r.k.s.pendingQueued)
            && (0 < r.count <= |data| ==> r.count <= k.q.bytes && Inv(Took(r.k, r.count)) && !r.k.s.pendingQueued)
  {
    hide Valid, Pending, Flat, LogSafe, HasShutdown, Writes, QueuedPlaintext, WrittenOctets, Octets,
         Took, SendTls, PeerCloseSeen;
    if k.tls {
      TlsOfferKeeps(k, data, o);
    } else {
      PlainOfferKeeps(k, data, o);
    }
  }

  /** What a (partial) flush has achieved between k and k': n more bytes, the
      oldest ones, are out; the rest is still queued or, after a failure, gone. */
  ghost predicate Advanced(k: Sock, k': Sock, n: nat, failed: bool)
    requires Valid(k.q) && Valid(k'.q)
  {
    && k'.accepted == k.accepted
    && n <= |Pending(k.q)|
    && WrittenOctets(k'.fates) == WrittenOctets(k.fates) + Pending(k.q)[..n]
    && Pending(k'.q) == (if failed then [] else Pending(k.q)[n..])
  }

  lemma SplitTwice(p: seq<byte>, n: nat, m: nat)
    requires n + m <= |p|
    ensures p[..n + m] == p[..n] + p[n..][..m]
    ensures p[n..][m..] == p[n + m..]
  {
  }

  lemma AdvancedAgain(k: Sock, t: Sock, k': Sock, n: nat, m: nat, failed: bool)
    requires Valid(k.q) && Valid(t.q) && Valid(k'.q)
    requires Advanced(k, t, n, false) && Advanced(t, k', m, failed)
    ensures Advanced(k, k', n + m, failed)
  {
    hide Valid, Flat, WrittenOctets, Pending;
    var p := Pending(k.q);
    assert |Pending(t.q)| == |p| - n;
    SplitTwice(p, n, m);
    assert WrittenOctets(k'.fates) == WrittenOctets(k.fates) + (p[..n] + p[n..][..m]);
  }

  lemma TookAdvances(k: Sock, k': Sock, count: nat)
    requires Inv(k) && k' == k.(s := k'.s, calls := k'.calls, log := k'.log)
    requires k.q.chunks != [] && 0 < count && k.q.frontOffset + count <= |k.q.chunks[0]| && count <= k.q.bytes
    ensures Valid(Took(k', count).q) && Advanced(k, Took(k', count), count, false)
    ensures Took(k', count).q.bytes < k.q.bytes
    ensures Took(k', count).s == k'.s
  {
    hide Valid, Flat, WrittenOctets, Pending, Octets, AsWritten, Consume;
    assert Accounted(k');
    TookSettles(k', count);
    var p := Pending(k.q);
    assert p[count..] == Pending(Took(k', count).q);
  }

  lemma AbandonAdvances(k: Sock, k': Sock)
    requires Inv(k) && k' == k.(s := k'.s, calls := k'.calls, log := k'.log)
    ensures Valid(Abandon(k').q) && Advanced(k, Abandon(k'), 0, true)
  {
    hide Valid, Flat, WrittenOctets, Octets, AsDiscarded;
    assert Accounted(k');
    DropSettles(k');
    assert WrittenOctets(k.fates) + Pending(k.q)[..0] == WrittenOctets(k.fates);
  }

  lemma StayAdvances(k: Sock, k': Sock)
    requires Inv(k) && k' == k.(s := k'.s, calls := k'.calls, log := k'.log)
    ensures Advanced(k, k', 0, false)
  {
    hide Valid, Flat, WrittenOctets, Octets;
    assert WrittenOctets(k.fates) + Pending(k.q)[..0] == WrittenOctets(k.fates);
    assert Pending(k.q)[0..] == Pending(k.q);
  }

  lemma FlushStepKeeps(k: Sock, left: nat, interrupts: nat, o: Oracle)
    requires Inv(k) && k.q.bytes != 0 && 0 < left <= SEND_BUDGET && interrupts <= 4 && Enough(k, left)
    ensures var step := FlushStep(k, left, interrupts, o);
            && Inv(step.k)
            && match step {
                 case Retry(k') => Advanced(k, k', 0, false) && !k'.s.pendingQueued
                 case Stop(k', failed) => Advanced(k, k', 0, failed)
                 case Progress(k', count) => Advanced(k, k', count, false) && !k'.s.pendingQueued
               }
  {
    hide Flat, LogSafe, HasShutdown, Writes, QueuedPlaintext, WrittenOctets, Octets, AsWritten, AsDiscarded,
         Took, Abandon, PollSendQueued, PeerCloseSeen, Advanced, Coalesced, Accounted, ShutdownQuiet, PlaintextMatches,
         RetryRemembered, Pending;
    EmptyIffNoBytes(k.q);
    var n := Request(k.q, left);
    OfferIsOldest(k.q, n);
    var data := k.q.chunks[0][k.q.frontOffset..k.q.frontOffset + n];
    assert FrontIs(k.q, data);
    RetryFitsOffer(k, left);
    var r := PollSendQueued(k, data, o);
    SendKeepsQueue(k, data, o);
    OfferKeeps(k, data, o);
    if r.count == 0 || (r.count < 0 && (r.errno == Interrupted || r.errno == WouldBlock)) {
      StayAdvances(k, r.k);
    } else if r.count < 0 || r.count > n {
      AbandonKeeps(r.k);
      AbandonAdvances(k, r.k);
    } else {
      TookAdvances(k, r.k, r.count);
    }
  }

  /** A flush sends a prefix of the pending bytes, at most the budget, and keeps
      the invariant. */
  lemma {:induction false} FlushFromKeeps(k: Sock, budget: nat, sent: nat, interrupts: nat, o: Oracle)
    requires Inv(k) && sent <= budget <= SEND_BUDGET && interrupts <= 4
    requires sent < budget ==> Enough(k, budget - sent)
    ensures var f := FlushFrom(k, budget, sent, interrupts, o);
            Inv(f.k) && sent <= f.sent <= budget && Advanced(k, f.k, f.sent - sent, f.failed)
    decreases k.q.bytes, 5 - interrupts
  {
    hide Valid, LogSafe, Accounted, ShutdownQuiet, PlaintextMatches, RetryRemembered, Shape, Pending, Advanced,
         FlushStep;
    var f := FlushFrom(k, budget, sent, interrupts, o);
    if k.q.bytes == 0 || sent >= budget {
      StayAdvances(k, k);
    } else {
      var step := FlushStep(k, budget - sent, interrupts, o);
      FlushStepKeeps(k, budget - sent, interrupts, o);
      match step
      case Retry(k') =>
        FlushFromKeeps(k', budget, sent, interrupts + 1, o);
        AdvancedAgain(k, k', f.k, 0, f.sent - sent, f.failed);
      case Stop(k', failed) =>
      case Progress(k', count) =>
        FlushFromKeeps(k', budget, sent + count, 0, o);
        AdvancedAgain(k, k', f.k, count, f.sent - sent - count, f.failed);
    }
  }

  lemma RetryFitsOffer(k: Sock, left: nat)
    requires Inv(k) && k.q.chunks != [] && 0 < left <= SEND_BUDGET && Enough(k, left)
    ensures Enough(k, Request(k.q, left))
  {
    hide Valid, Flat, LogSafe, HasShutdown, Writes, QueuedPlaintext, WrittenOctets, Octets, PeerCloseSeen, Accounted;
  }

  lemma FlushKeeps(k: Sock, o: Oracle)
    requires Inv(k)
    ensures Inv(Flush(k, SEND_BUDGET, o).k)
  {
    hide Valid, LogSafe, Accounted, ShutdownQuiet, PlaintextMatches, RetryRemembered, FlushFrom, Advanced;
    if k.valid && !k.blocking {
      FlushFromKeeps(k, SEND_BUDGET, 0, 0, o);
    }
  }

  // ----- sessions ----------------------------------------------------------

  lemma SessionStepsKeepShape(s: Session, a: Answer, now: int)
    requires SessionShape(s)
    ensures s.live && !s.ready ==> SessionShape(AfterHandshake(s, a))
    ensures s.ready ==> SessionShape(AfterRead(s, a.ssl, now))
    ensures s.ready && s.shutRequested ==> SessionShape(AfterShutdown(s, a))
    ensures SessionShape(EndSession(s))
  {
  }

  lemma PeerCloseSnoc(log: seq<SslEvent>, e: SslEvent)
    ensures PeerCloseSeen(log + [e]) <==> PeerCloseSeen(log) || ShowsPeerClose(e)
  {
    hide ShowsPeerClose;
    assert (log + [e])[|log|] == e;
    assert forall i :: 0 <= i < |log| ==> (log + [e])[i] == log[i];
  }

  /** Only session flags and the log change, by a call that is no write. */
  lemma QuietStepKeeps(k: Sock, k': Sock, e: SslEvent)
    requires Inv(k) && k.tls && k.s.live && !e.WriteCall?
    requires k' == k.(s := k'.s, calls := k'.calls, log := k.log + [e])
    requires SessionShape(k'.s) && !e.SendCall?
    requires k'.s.peerNotified ==> k.s.peerNotified || ShowsPeerClose(e)
    requires e.ShutdownCall? || k.s.shutRequested ==> k'.s.shutRequested
    requires e.ShutdownCall? ==> k.q.bytes == 0
    requires k'.s.pendingLen == k.s.pendingLen && k'.s.pendingQueued == k.s.pendingQueued
    requires k'.s.pendingHash == k.s.pendingHash
    ensures Inv(k')
  {
    hide Valid, Flat, Pending, Octets, WrittenOctets, Writes, QueuedPlaintext, LogSafe, HasShutdown, PeerCloseSeen,
         SessionShape, ShowsPeerClose;
    QuietLog(k.log, e);
    ShutdownSnoc(k.log, e);
    PeerCloseSnoc(k.log, e);
  }

  lemma InitSessionKeeps(k: Sock, server: bool)
    requires Valid(k.q) && k.q.bytes == 0 && k.tls && k.valid
    requires k.accepted == [] && k.fates == [] && k.failures == 0
    ensures Inv(InitSession(k, server))
  {
    hide Flat, Coalesced;
    EmptyIffNoBytes(k.q);
  }

  lemma CloseKeeps(k: Sock, o: Oracle)
    requires Inv(k)
    ensures Inv(Close(k, o))
    ensures var c := Close(k, o);
            c.q.bytes == 0 && !c.s.live && !c.valid && c.tls == k.tls &&
            WrittenOctets(c.fates) == WrittenOctets(k.fates)
  {
    hide Valid, Flat, Pending, Octets, WrittenOctets, Writes, QueuedPlaintext, LogSafe, HasShutdown, PeerCloseSeen,
         AsDiscarded, SessionShape, EndSession;
    DropSettles(k);
    SessionStepsKeepShape(k.s, Answer(0, NoError, Fatal, false, false), 0);
    if NotifiesOnClose(k) {
      QuietLog(k.log, ShutdownCall(false, o(k.calls).ssl, o(k.calls).alertSent));
    }
    SessionEnds(k.s);
    ClosedAccount(k, o);
  }

  lemma SessionEnds(s: Session)
    ensures !EndSession(s).live && !EndSession(s).ready && !EndSession(s).peerNotified
  {
  }

  lemma ClosedAccount(k: Sock, o: Oracle)
    ensures var c := Close(k, o);
            c.q == Drop(k).q && c.fates == Drop(k).fates && c.accepted == k.accepted
  {
    hide EndSession;
  }

  lemma PrepareKeeps(k: Sock, o: Oracle)
    requires Inv(k)
    ensures Inv(PrepareConnect(k, o)) && PrepareConnect(k, o).tls == k.tls
  {
    hide Valid, LogSafe, Accounted, PlaintextMatches, RetryRemembered, Close, PeerCloseSeen, SessionShape;
    CloseKeeps(k, o);
    var k0 := if k.tls && (k.s.live || k.connected) then Close(k, o) else k;
    FlagKeeps(k0, PrepareConnect(k, o));
  }

  lemma ConnectFromKeeps(k: Sock, outcome: Outcome, o: Oracle)
    requires Inv(k)
    ensures Inv(ConnectFrom(k, outcome, o))
  {
    hide LogSafe, Accounted, PlaintextMatches, RetryRemembered, Close, InitSession, PeerCloseSeen, SessionShape;
    CloseKeeps(k, o);
    var k2 := Close(k, o).(valid := true, connected := true, blocking := false,
                           log := [], accepted := [], fates := [], failures := 0);
    if k.tls {
      InitSessionKeeps(k2, false);
    } else {
      OpenedKeeps(Close(k, o), k2);
    }
  }

  lemma ConnectKeeps(k: Sock, outcome: Outcome, o: Oracle)
    requires Inv(k)
    ensures Inv(Connect(k, outcome, o))
  {
    hide Inv, ConnectFrom, PrepareConnect;
    PrepareKeeps(k, o);
    ConnectFromKeeps(PrepareConnect(k, o), outcome, o);
  }

  lemma OpenedKeeps(k: Sock, k': Sock)
    requires Inv(k) && !k.tls && k.q.bytes == 0
    requires k' == k.(valid := true, connected := true, blocking := false, log := [], accepted := [], fates := [],
                      failures := 0)
    ensures Inv(k')
  {
    hide Valid, LogSafe, HasShutdown, PeerCloseSeen, Writes, Pending, QueuedPlaintext, SessionShape;
    EmptyIffNoBytes(k.q);
    EmptyLogIsSafe();
    assert SessionShape(k.s) ==> !k.s.peerNotified by { SessionEndsQuiet(k.s); }
  }

  lemma EmptyLogIsSafe()
    ensures LogSafe([]) && SystemTook([]) == []
  {
  }

  /** Clocks, timeouts and options are not part of any promise above. */
  lemma FlagKeeps(k: Sock, k': Sock)
    requires Inv(k)
    requires k' == k.(blocking := k'.blocking, now := k'.now,
                      s := k.s.(strict := k'.s.strict, handshakeTimeout := k'.s.handshakeTimeout,
                                handshakeDeadline := k'.s.handshakeDeadline))
    ensures Inv(k')
  {
    hide Valid, LogSafe, HasShutdown, PeerCloseSeen, Writes, Pending, Octets, QueuedPlaintext, WrittenOctets;
  }

  lemma HandshakeKeeps(k: Sock, o: Oracle)
    requires Inv(k) && k.tls && k.s.live && !k.s.ready
    ensures Inv(Handshake(k, o).0)
  {
    hide Valid, LogSafe, Accounted, RetryRemembered, PlaintextMatches, ShutdownQuiet, PeerCloseSeen, SessionShape,
         ShowsPeerClose;
    SessionStepsKeepShape(k.s, o(k.calls), k.now);
    QuietStepKeeps(k, Handshake(k, o).0, HandshakeCall(o(k.calls).ssl, o(k.calls).verified, Checks(k.s)));
  }

  lemma PollReceiveKeeps(k: Sock, o: Oracle)
    requires Inv(k)
    ensures Inv(PollReceive(k, o).k)
  {
    hide Valid, LogSafe, Accounted, RetryRemembered, PlaintextMatches, ShutdownQuiet, PeerCloseSeen, SessionShape;
    if k.s.ready && k.s.live {
      SessionStepsKeepShape(k.s, o(k.calls), k.now);
      QuietStepKeeps(k, PollReceive(k, o).k, ReadCall(o(k.calls).ssl, k.now));
    }
  }

  lemma BeginShutdownKeeps(k: Sock, ms: int)
    requires Inv(k)
    ensures k.tls ==> Inv(BeginShutdown(k, ms).k)
    ensures !k.tls ==> BeginShutdown(k, ms).k == k
  {
    hide Valid, LogSafe, Accounted, RetryRemembered, PlaintextMatches, ShutdownQuiet, PeerCloseSeen;
    if MayBeginShutdown(k, ms) && k.tls {
      QuietStepKeeps(k, BeginShutdown(k, ms).k, ShutdownBegun(k.now, ms));
    }
  }

  lemma PollShutdownKeeps(k: Sock, f: Flags, o: Oracle)
    requires Inv(k) && k.tls && k.s.live && k.s.ready && k.s.shutRequested && k.q.bytes == 0
    ensures Inv(PollShutdown(k, f, o).0)
  {
    hide Valid, LogSafe, Accounted, RetryRemembered, PlaintextMatches, ShutdownQuiet, PeerCloseSeen, SessionShape;
    SessionStepsKeepShape(k.s, o(k.calls), k.now);
    QuietStepKeeps(k, PollShutdown(k, f, o).0, ShutdownCall(true, o(k.calls).ssl, o(k.calls).alertSent));
  }

  lemma FailedKeeps(k: Sock)
    requires Inv(k) && k.tls && k.s.live
    ensures Inv(MarkFailed(k))
  {
    hide Valid, LogSafe, Accounted, RetryRemembered, PlaintextMatches, ShutdownQuiet, PeerCloseSeen;
    QuietStepKeeps(k, MarkFailed(k), TransportError);
  }

  lemma PollStepKeeps(k: Sock, f: Flags, o: Oracle)
    requires Inv(k)
    ensures Inv(PollStep(k, f, o).0)
  {
    hide Valid, LogSafe, Accounted, RetryRemembered, PlaintextMatches, ShutdownQuiet, PeerCloseSeen, PollShutdown,
         Handshake, MarkFailed;
    if k.tls && k.s.live {
      FailedKeeps(k);
    }
    if k.tls && k.s.live && !k.s.ready {
      HandshakeKeeps(k, o);
    }
    if k.tls && k.s.ready && k.s.shutRequested && k.q.bytes == 0 {
      PollShutdownKeeps(k, f, o);
    }
  }

  lemma OptionKeeps(k: Sock, op: Op)
    requires Inv(k)
    ensures Inv(SetOption(k, op))
  {
    hide Inv;
    FlagKeeps(k, SetOption(k, op));
  }

  lemma ApplyKeeps(k: Sock, op: Op, o: Oracle)
    requires Inv(k)
    ensures Inv(Apply(k, op, o))
  {
    hide Valid, LogSafe, Accounted, RetryRemembered, PlaintextMatches, ShutdownQuiet, Shape, SetOption,
         QueueWrite, DirectWrite, SetMaxQueuedBytes, Connect, Close, BeginShutdown, PollReceive, PollStep, Flush;
    match op
    case OpQueueWrite(data) => QueueWriteKeeps(k, data);
    case OpDirectWrite(data) => DirectWriteKeeps(k, data, o);
    case OpSetLimit(limit) => SetLimitKeeps(k, limit);
    case OpConnect(outcome) => ConnectKeeps(k, outcome, o);
    case OpClose => CloseKeeps(k, o);
    case OpBeginShutdown(ms) => BeginShutdownKeeps(k, ms);
    case OpRead => PollReceiveKeeps(k, o);
    case OpPollStep(f) => PollStepKeeps(k, f, o);
    case OpFlush => FlushKeeps(k, o);
    case OpSetBlocking(_) => OptionKeeps(k, op);
    case OpSetHandshakeTimeout(_) => OptionKeeps(k, op);
    case OpSetStrict(_) => OptionKeeps(k, op);
    case OpWait(_) => OptionKeeps(k, op);
  }

  // ----- every run ---------------------------------------------------------

  ghost predicate Initial(k: Sock) {
    || (exists tls, usable, now :: k == FreshClient(tls, usable, now))
    || (exists tls, now :: k == AcceptedPeer(tls, now))
  }

  lemma UntouchedInv(k: Sock)
    requires k.q == EmptyQueue && k.s == NoSession
    requires k.log == [] && k.accepted == [] && k.fates == []
    ensures Inv(k)
  {
  }

  lemma FreshInv(tls: bool, usable: bool, now: int)
    ensures Inv(FreshClient(tls, usable, now))
    ensures !tls ==> Inv(AcceptedPeer(tls, now))
  {
    hide Inv;
    UntouchedInv(FreshClient(tls, usable, now));
    UntouchedInv(FreshClient(tls, true, now).(connected := true));
  }

  lemma InitialInv(k: Sock)
    requires Initial(k)
    ensures Inv(k)
  {
    hide Inv, InitSession;
    if exists tls, usable, now :: k == FreshClient(tls, usable, now) {
      var tls, usable, now :| k == FreshClient(tls, usable, now);
      FreshInv(tls, usable, now);
    } else {
      var tls, now :| k == AcceptedPeer(tls, now);
      FreshInv(tls, true, now);
      assert Valid(EmptyQueue);
      if tls {
        InitSessionKeeps(FreshClient(tls, true, now).(connected := true, s := NoSession.(strict := false)), true);
      }
    }
  }

  /** The socket after a list of operations. */
  ghost function Run(k: Sock, ops: seq<Op>, o: Oracle): Sock
    requires Inv(k)
    decreases |ops|
  {
    if ops == [] then k
    else
      ApplyKeeps(k, ops[0], o);
      Run(Apply(k, ops[0], o), ops[1..], o)
  }

  lemma {:induction false} RunKeeps(k: Sock, ops: seq<Op>, o: Oracle)
    requires Inv(k)
    ensures Inv(Run(k, ops, o))
    decreases |ops|
  {
    hide Apply, Valid, LogSafe, Accounted, RetryRemembered, PlaintextMatches, ShutdownQuiet, Shape;
    if ops != [] {
      ApplyKeeps(k, ops[0], o);
      RunKeeps(Apply(k, ops[0], o), ops[1..], o);
    }
  }
}
