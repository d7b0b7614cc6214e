/** The value-level account of one event socket, plain TCP or TLS: its output
    queue, its TLS session flags and what its hooks do to them.

    The operating system and OpenSSL are an oracle: answers(n) is what the n-th
    call made on behalf of the socket returns.  A statement made for every
    oracle is a statement about every behaviour of both. */
module Transport {
  import opened Bytes
  import opened WriteQueue

  // ----- the environment ---------------------------------------------------

  datatype Errno = NoError | WouldBlock | Interrupted | Broken

  /** What SSL_do_handshake, SSL_read, SSL_write and SSL_shutdown report, with
      SSL_get_error already consulted.  A read or shutdown that answers
      ZeroReturn, or a shutdown that answers Done(1), is OpenSSL's evidence of
      the peer's close_notify (section 6.1 of RFC 8446). */
  datatype SslAnswer = Done(count: nat) | WantRead | WantWrite | ZeroReturn | Fatal

  /** sent and errno answer a plain send; ssl answers an OpenSSL call; alertSent
      is SSL_get_shutdown's SSL_SENT_SHUTDOWN bit after a blocked shutdown and
      verified is the outcome of certificate verification. */
  datatype Answer = Answer(sent: int, errno: Errno, ssl: SslAnswer, alertSent: bool, verified: bool)

  type Oracle = nat -> Answer

  /** poll(2) readiness bits. */
  datatype Flags = Flags(input: bool, output: bool, hup: bool, err: bool, nval: bool)

  // ----- the state ---------------------------------------------------------

  datatype Session = Session(
    live: bool,
    server: bool,
    strict: bool,
    ready: bool,
    needWrite: bool,
    sendNeedRead: bool,
    recvNeedWrite: bool,
    pendingLen: nat,
    pendingQueued: bool,
    pendingHash: bv64,
    failed: bool,
    peerNotified: bool,
    shutRequested: bool,
    shutSent: bool,
    shutNeedWrite: bool,
    shutNeedRead: bool,
    shutDeadline: int,
    handshakeDeadline: int,
    handshakeTimeout: int)

  /** One SSL_write: the plaintext it presented, whether it came from the queue,
      how much OpenSSL took, whether it has to be repeated, and then whether it waits
      for input, and how many queued bytes were outstanding when it was made. */
  datatype Write = Write(data: seq<byte>, queued: bool, taken: nat, blocked: bool, needRead: bool, outstanding: nat)

  /** One OpenSSL call of the current TLS session: checked says whether certificate
      verification was in force, verified what it found and at when the call was made.
      begin_graceful_shutdown and an error flag from poll(2) leave their mark, too.  A
      plain socket has SendCall only, a send(2) since it was last connected. */
  datatype SslEvent =
    | HandshakeCall(answer: SslAnswer, verified: bool, checked: bool)
    | ReadCall(answer: SslAnswer, at: int)
    | WriteCall(w: Write)
    | ShutdownCall(byPoller: bool, answer: SslAnswer, alertSent: bool)
    | ShutdownBegun(at: int, timeoutMs: int)
    | TransportError
    | SendCall(data: seq<byte>, queued: bool, sent: int, errno: Errno)

  /** What became of an accepted byte. */
  datatype Fate = Written(octet: byte) | Discarded(octet: byte)

  /** accepted, fates and failures (failed flushes) are the account of the queue
      since the socket was created or last connected; log covers the current TLS
      session, or the plain connection. */
  datatype Sock = Sock(
    tls: bool,
    valid: bool,
    connected: bool,
    blocking: bool,
    q: Queue,
    s: Session,
    now: int,
    calls: nat,
    log: seq<SslEvent>,
    accepted: seq<byte>,
    fates: seq<Fate>,
    failures: nat)

  const NS_PER_MS: int := 1_000_000
  const SEND_BUDGET: nat := 64 * 1024
  const INT_MAX: nat := 0x7fff_ffff
  const PEER_CLOSE_TIMEOUT_MS: int := 5000

  const NoSession := Session(false, false, true, false, false, false, false, 0, false, 0,
                             false, false, false, false, false, false, 0, 0, 5000)

  function AsWritten(data: seq<byte>): seq<Fate> {
    seq(|data|, i requires 0 <= i < |data| => Written(data[i]))
  }

  function AsDiscarded(data: seq<byte>): seq<Fate> {
    seq(|data|, i requires 0 <= i < |data| => Discarded(data[i]))
  }

  function Octets(fates: seq<Fate>): seq<byte> {
    seq(|fates|, i requires 0 <= i < |fates| => fates[i].octet)
  }

  /** The bytes of the account that were written, in order. */
  function WrittenOctets(fates: seq<Fate>): seq<byte> {
    if fates == [] then []
    else
      var rest := WrittenOctets(fates[..|fates| - 1]);
      match fates[|fates| - 1]
      case Written(b) => rest + [b]
      case Discarded(_) => rest
  }

  /** Everything still in the queue is given up. */
  function Drop(k: Sock): Sock {
    k.(q := Clear(k.q), fates := k.fates + AsDiscarded(Pending(k.q)))
  }

  // ----- queue_write and the limit ----------------------------------------

  predicate AcceptsQueuedWrite(k: Sock) {
    !k.tls || !k.s.shutRequested
  }

  predicate QueueOpen(k: Sock) {
    k.valid && k.connected && !k.blocking && AcceptsQueuedWrite(k)
  }

  datatype Accepted = Accepted(k: Sock, ok: bool)

  function QueueWrite(k: Sock, data: seq<byte>): Accepted {
    if !QueueOpen(k) then Accepted(k, false)
    else if data == [] then Accepted(k, true)
    else if !Fits(k.q, data) then Accepted(k, false)
    else Accepted(k.(q := Push(k.q, data), accepted := k.accepted + data), true)
  }

  function SetMaxQueuedBytes(k: Sock, limit: nat): Accepted {
    if limit < k.q.bytes then Accepted(k, false)
    else Accepted(k.(q := k.q.(limit := limit)), true)
  }

  // ----- sending -----------------------------------------------------------

  datatype Sent = Sent(k: Sock, count: int, errno: Errno)

  /** One send(2) of a plain socket. */
  function PlainSend(k: Sock, data: seq<byte>, queued: bool, o: Oracle): Sent {
    var a := o(k.calls);
    Sent(k.(calls := k.calls + 1, log := k.log + [SendCall(data, queued, a.sent, a.errno)]),
         if a.sent < 0 then -1 else a.sent,
         if a.sent < 0 then a.errno else NoError)
  }

  /** SSL_write takes between one and all of the bytes it is shown. */
  function Granted(count: nat, size: nat): (n: nat)
    requires size > 0
    ensures 1 <= n <= size
    ensures 1 <= count <= size ==> n == count
  {
    if count == 0 then 1 else if count > size then size else count
  }

  predicate RetryMatches(s: Session, data: seq<byte>, queued: bool) {
    && |data| >= s.pendingLen
    && (queued || |data| == s.pendingLen)
    && Digest(data[..s.pendingLen]) == s.pendingHash
  }

  /** The SSL_write made from state k. */
  function WriteMade(k: Sock, plain: seq<byte>, queued: bool, o: Oracle): Write
    requires plain != []
  {
    var a := o(k.calls).ssl;
    Write(plain, queued, if a.Done? then Granted(a.count, |plain|) else 0,
          a.WantRead? || a.WantWrite?, a.WantRead?, k.q.bytes)
  }

  /** The retry fields after a write: a blocked one is remembered until it
      succeeds or fails for good. */
  function AfterWrite(s: Session, w: Write): Session {
    var first := w.blocked && s.pendingLen == 0;
    s.(pendingLen := if first then |w.data| else if w.blocked then s.pendingLen else 0,
       pendingQueued := if first then w.queued else w.blocked && s.pendingQueued,
       pendingHash := if first then Digest(w.data) else if w.blocked then s.pendingHash else 0,
       sendNeedRead := w.blocked && w.needRead,
       failed := s.failed || (!w.blocked && w.taken == 0))
  }

  function SslWrite(k: Sock, plain: seq<byte>, queued: bool, o: Oracle): Sent
    requires plain != []
  {
    var w := WriteMade(k, plain, queued, o);
    Sent(k.(s := AfterWrite(k.s, w), calls := k.calls + 1,
            log := k.log + [WriteCall(w)]),
         if w.taken != 0 then w.taken else -1,
         if w.taken != 0 then NoError else if w.blocked then WouldBlock else Broken)
  }

  function SendTls(k: Sock, data: seq<byte>, queued: bool, o: Oracle): Sent {
    if !k.s.ready || !k.s.live || data == [] || (k.s.shutRequested && !queued) then
      Sent(k, -1, Broken)
    else if !queued && k.s.pendingLen == 0 && k.q.bytes != 0 then
      Sent(k, -1, WouldBlock)
    else if k.s.pendingLen != 0 && queued != k.s.pendingQueued then
      Sent(k, -1, WouldBlock)
    else if k.s.pendingLen != 0 && !RetryMatches(k.s, data, queued) then
      Sent(k, -1, Broken)
    else
      SslWrite(k, if k.s.pendingLen != 0 then data[..k.s.pendingLen] else data, queued, o)
  }

  function PollSendQueued(k: Sock, data: seq<byte>, o: Oracle): Sent {
    if k.tls then SendTls(k, data, true, o) else PlainSend(k, data, true, o)
  }

  /** event_socket::write: a direct, unbuffered write. */
  function DirectWrite(k: Sock, data: seq<byte>, o: Oracle): Sent {
    if !k.valid || data == [] then Sent(k, -1, Broken)
    else if k.tls then SendTls(k, data, false, o)
    else PlainSend(k, data, false, o)
  }

  // ----- flush_queued ------------------------------------------------------

  datatype Flushed = Flushed(k: Sock, sent: nat, failed: bool)

  function Request(q: Queue, left: nat): (n: nat)
    requires q.chunks != [] && q.frontOffset <= |q.chunks[0]|
    ensures n <= Available(q) && n <= left && n <= INT_MAX
    ensures Available(q) > 0 && left > 0 ==> n > 0
  {
    var n := if left < Available(q) then left else Available(q);
    if n < INT_MAX then n else INT_MAX
  }

  /** count > 0 bytes at the front of the queue went out. */
  function Took(k: Sock, count: nat): Sock
    requires k.q.chunks != [] && k.q.frontOffset + count <= |k.q.chunks[0]| && count <= k.q.bytes
  {
    k.(q := Consume(k.q, count),
       fates := k.fates + AsWritten(k.q.chunks[0][k.q.frontOffset..k.q.frontOffset + count]))
  }

  lemma SslWriteFrame(k: Sock, plain: seq<byte>, queued: bool, o: Oracle)
    requires plain != []
    ensures var r := SslWrite(k, plain, queued, o).k; r == k.(s := r.s, calls := r.calls, log := r.log)
  {
    hide AfterWrite;
  }

  /** A transport hook never touches the queue or the account it is fed from. */
  lemma SendKeepsQueue(k: Sock, data: seq<byte>, o: Oracle)
    ensures var r := PollSendQueued(k, data, o).k; r == k.(s := r.s, calls := r.calls, log := r.log)
  {
    hide SslWrite, Digest;
    if k.s.pendingLen == 0 {
      if data != [] {
        SslWriteFrame(k, data, true, o);
      }
    } else if k.s.pendingLen <= |data| {
      SslWriteFrame(k, data[..k.s.pendingLen], true, o);
    }
  }

  /** A flush that fails for good gives up everything still queued. */
  function Abandon(k: Sock): Sock {
    Drop(k).(failures := k.failures + 1)
  }

  /** What one offer to the transport leads to: the loop goes on after an
      interruption or after count > 0 bytes went out, and stops otherwise. */
  datatype Step = Retry(k: Sock) | Stop(k: Sock, failed: bool) | Progress(k: Sock, count: nat)

  function FlushStep(k: Sock, left: nat, interrupts: nat, o: Oracle): (step: Step)
    requires Valid(k.q) && k.q.bytes != 0 && left != 0 && interrupts <= 4
    ensures step.Retry? ==> Valid(step.k.q) && step.k.q.bytes == k.q.bytes && interrupts < 4
    ensures step.Progress? ==> Valid(step.k.q) && step.k.q.bytes < k.q.bytes && 0 < step.count <= left
  {
    EmptyIffNoBytes(k.q);
    var n := Request(k.q, left);
    OfferIsOldest(k.q, n);
    hide PollSendQueued;
    var r := PollSendQueued(k, k.q.chunks[0][k.q.frontOffset..k.q.frontOffset + n], o);
    SendKeepsQueue(k, k.q.chunks[0][k.q.frontOffset..k.q.frontOffset + n], o);
    if r.count < 0 then
      if r.errno == Interrupted && interrupts < 4 then Retry(r.k)
      else if r.errno == Interrupted || r.errno == WouldBlock then Stop(r.k, false)
      else Stop(Abandon(r.k), true)
    else if r.count == 0 then Stop(r.k, false)
    else if r.count > n then Stop(Abandon(r.k), true)
    else
      ConsumeRemoves(k.q, r.count);
      Progress(Took(r.k, r.count), r.count)
  }

  function FlushFrom(k: Sock, budget: nat, sent: nat, interrupts: nat, o: Oracle): Flushed
    requires Valid(k.q) && sent <= budget && interrupts <= 4
    decreases k.q.bytes, 5 - interrupts
  {
    if k.q.bytes == 0 || sent >= budget then Flushed(k, sent, false)
    else
      match FlushStep(k, budget - sent, interrupts, o)
      case Retry(k') => FlushFrom(k', budget, sent, interrupts + 1, o)
      case Stop(k', failed) => Flushed(k', sent, failed)
      case Progress(k', count) => FlushFrom(k', budget, sent + count, 0, o)
  }

  datatype FlushResult = FlushResult(k: Sock, bytes: nat, failed: bool, drained: bool)

  function Flush(k: Sock, budget: nat, o: Oracle): FlushResult
    requires Valid(k.q)
  {
    if !k.valid || k.blocking || budget == 0 then FlushResult(k, 0, false, false)
    else
      var f := FlushFrom(k, budget, 0, 0, o);
      FlushResult(f.k, f.sent, f.failed, k.q.bytes != 0 && f.k.q.bytes == 0 && !f.failed)
  }

  // ----- sessions: start, handshake, reading ------------------------------

  function InitSession(k: Sock, server: bool): Sock {
    k.(s := k.s.(live := true, server := server, ready := false, needWrite := !server,
                 sendNeedRead := false, recvNeedWrite := false, pendingLen := 0,
                 pendingQueued := false, pendingHash := 0, failed := false, peerNotified := false,
                 shutRequested := false, shutSent := false, shutNeedWrite := false,
                 shutNeedRead := false,
                 handshakeDeadline := k.now + k.s.handshakeTimeout * NS_PER_MS),
       log := [])
  }

  /** An event socket as constructed: a fresh unconnected client descriptor, if the
      system provides one and lets it be nonblocking, or an accepted one, whose TLS
      session then starts at once. */
  function FreshClient(tls: bool, usable: bool, now: int): Sock {
    Sock(tls, usable, false, !usable, EmptyQueue, NoSession, now, 0, [], [], [], 0)
  }

  function AcceptedPeer(tls: bool, now: int): Sock {
    var k := FreshClient(tls, true, now).(connected := true);
    if tls then InitSession(k.(s := k.s.(strict := false)), true) else k
  }

  function EndSession(s: Session): Session {
    s.(live := false, ready := false, needWrite := false, sendNeedRead := false,
       recvNeedWrite := false, pendingLen := 0, pendingQueued := false, pendingHash := 0,
       failed := false, peerNotified := false, shutRequested := false, shutSent := false,
       shutNeedWrite := false, shutNeedRead := false)
  }

  predicate NotifiesOnClose(k: Sock) {
    && k.tls && k.s.live && k.s.ready && !k.s.failed && !k.s.peerNotified && !k.s.shutSent && k.valid
  }

  /** close(): at most one immediate close_notify, then everything is dropped. */
  function Close(k: Sock, o: Oracle): Sock {
    var k1 := if NotifiesOnClose(k)
              then k.(calls := k.calls + 1,
                      log := k.log + [ShutdownCall(false, o(k.calls).ssl, o(k.calls).alertSent)])
              else k;
    var k2 := if k.tls then k1.(s := EndSession(k1.s)) else k1;
    var k3 := Drop(k2);
    if k.valid then k3.(valid := false, connected := false) else k3
  }

  /** How far a connection attempt gets. */
  datatype Outcome = Unresolved | TcpFailed | SetupFailed | Established

  /** connect() before the TCP phase, which blocks: an earlier TLS session is
      torn down first. */
  function PrepareConnect(k: Sock, o: Oracle): Sock {
    var k0 := if k.tls && (k.s.live || k.connected) then Close(k, o) else k;
    if k.tls && k0.valid then k0.(blocking := true) else k0
  }

  /** connect(); an accepted TLS peer refuses it. */
  function Connect(k: Sock, outcome: Outcome, o: Oracle): Sock {
    if k.tls && k.s.server then k else ConnectFrom(PrepareConnect(k, o), outcome, o)
  }

  function ConnectFrom(k1: Sock, outcome: Outcome, o: Oracle): Sock {
    match outcome
    case Unresolved => k1
    case TcpFailed => Close(k1, o)
    case SetupFailed => Close(k1, o)
    case Established =>
      var k2 := Close(k1, o).(valid := true, connected := true, blocking := false,
                              log := [], accepted := [], fates := [], failures := 0);
      if k1.tls then InitSession(k2, false) else k2
  }

  /** Certificate verification is in force. */
  predicate Checks(s: Session) {
    !s.server && s.strict
  }

  predicate HandshakeAccepted(s: Session, a: Answer) {
    a.ssl.Done? && (s.server || !s.strict || a.verified)
  }

  function AfterHandshake(s: Session, a: Answer): Session {
    s.(ready := s.ready || HandshakeAccepted(s, a),
       needWrite := a.ssl.WantWrite? || (s.needWrite && !a.ssl.WantRead? && !HandshakeAccepted(s, a)))
  }

  function Handshake(k: Sock, o: Oracle): (Sock, int) {
    var a := o(k.calls);
    (k.(s := AfterHandshake(k.s, a), calls := k.calls + 1,
        log := k.log + [HandshakeCall(a.ssl, a.verified, Checks(k.s))]),
     if HandshakeAccepted(k.s, a) then 2 else if a.ssl.WantRead? || a.ssl.WantWrite? then 0 else -1)
  }

  /** The peer's close_notify starts our half of the shutdown, if it had not begun. */
  function AfterRead(s: Session, a: SslAnswer, now: int): Session {
    var begins := a.ZeroReturn? && !s.shutRequested;
    s.(recvNeedWrite := a.WantWrite? || (s.recvNeedWrite && (a.ZeroReturn? || a.Fatal?)),
       peerNotified := s.peerNotified || a.ZeroReturn?,
       shutRequested := s.shutRequested || a.ZeroReturn?,
       shutSent := s.shutSent && !begins,
       shutNeedWrite := s.shutNeedWrite && !begins,
       shutNeedRead := s.shutNeedRead && !begins,
       shutDeadline := if begins then now + PEER_CLOSE_TIMEOUT_MS * NS_PER_MS else s.shutDeadline,
       failed := s.failed || a.Fatal?)
  }

  /** poll_receive on a TLS socket: the count read, or -1 with the error kind. */
  function PollReceive(k: Sock, o: Oracle): Sent {
    if !k.s.ready || !k.s.live then Sent(k, -1, Broken)
    else
      var a := o(k.calls).ssl;
      Sent(k.(s := AfterRead(k.s, a, k.now), calls := k.calls + 1, log := k.log + [ReadCall(a, k.now)]),
           if !a.Done? then -1 else if a.count == 0 then 1 else a.count,
           if a.Done? then NoError else if a.Fatal? then Broken else WouldBlock)
  }

  // ----- graceful shutdown -------------------------------------------------

  predicate MayBeginShutdown(k: Sock, timeoutMs: int) {
    && 100 <= timeoutMs <= 60000
    && k.s.ready && k.s.live && k.valid && !k.s.failed && !k.s.peerNotified
    && !(k.s.pendingLen != 0 && !k.s.pendingQueued)
    && !k.s.shutRequested
  }

  function BeginShutdown(k: Sock, timeoutMs: int): Accepted {
    if !MayBeginShutdown(k, timeoutMs) then Accepted(k, false)
    else Accepted(k.(s := k.s.(shutRequested := true, shutSent := false, shutNeedWrite := false,
                               shutNeedRead := false,
                               shutDeadline := k.now + timeoutMs * NS_PER_MS),
                        log := k.log + [ShutdownBegun(k.now, timeoutMs)]), true)
  }

  /** The session flags after an SSL_shutdown: Done(0) says our alert is out and
      the peer's is awaited; a blocked call says which way it waits. */
  function AfterShutdown(s: Session, a: Answer): Session {
    var blocked := a.ssl.WantRead? || a.ssl.WantWrite?;
    var awaits := a.ssl == Done(0);
    s.(shutSent := awaits || (if blocked then a.alertSent else s.shutSent),
       shutNeedWrite := a.ssl.WantWrite? || (s.shutNeedWrite && !blocked && !awaits),
       shutNeedRead := a.ssl.WantRead? || awaits || (s.shutNeedRead && !blocked),
       failed := s.failed || ((a.ssl.ZeroReturn? || a.ssl.Fatal?) && !s.peerNotified))
  }

  /** One SSL_shutdown by the poller. */
  function PollShutdown(k: Sock, f: Flags, o: Oracle): (Sock, int) {
    var a := o(k.calls);
    (k.(s := AfterShutdown(k.s, a), calls := k.calls + 1, log := k.log + [ShutdownCall(true, a.ssl, a.alertSent)]),
     match a.ssl
     case Done(n) => if n != 0 then 3 else 0
     case WantRead => if k.s.peerNotified && a.alertSent && f.hup then 3 else 0
     case WantWrite => if k.s.peerNotified && a.alertSent && f.hup then 3 else 0
     case ZeroReturn => if k.s.peerNotified then 3 else -1
     case Fatal => if k.s.peerNotified then 3 else -1)
  }

  /** An error flag ends a session that is up. */
  function MarkFailed(k: Sock): Sock {
    k.(s := k.s.(failed := true), log := k.log + [TransportError])
  }

  /** The shutdown branch of poll_step, for a ready session. */
  function ShutdownStep(k: Sock, f: Flags, o: Oracle): (Sock, int) {
    if k.now >= k.s.shutDeadline then (k, -1)
    else if f.err || f.nval then
      if k.s.peerNotified then (k, 3) else (MarkFailed(k), -1)
    else if k.s.peerNotified && f.hup then (k, 3)
    else if k.q.bytes != 0 then (k, 1)
    else if k.s.shutNeedRead && !(f.input || f.hup) then (k, 0)
    else if k.s.shutNeedWrite && !f.output then (k, 0)
    else if !k.s.shutNeedRead && !k.s.shutNeedWrite && k.s.shutSent && !f.input then (k, 0)
    else if !k.s.shutNeedRead && !k.s.shutNeedWrite && !k.s.shutSent && !f.output then (k, 0)
    else PollShutdown(k, f, o)
  }

  /** poll_step: 3 orderly close, 2 handshake complete, 1 application data may
      flow, 0 pending, -1 terminal error. */
  function PollStep(k: Sock, f: Flags, o: Oracle): (Sock, int) {
    if !k.tls then (k, 1)
    else if k.s.live && !k.s.ready && k.now >= k.s.handshakeDeadline then (k, -1)
    else if !k.s.live then (k, -1)
    else if k.s.ready then
      if k.s.shutRequested then ShutdownStep(k, f, o)
      else if f.err || f.nval then (MarkFailed(k), -1)
      else (k, 1)
    else if f.err || f.nval || f.hup then (k, -1)
    else if (k.s.needWrite && !f.output) || (!k.s.needWrite && !(f.input || f.hup)) then (k, 0)
    else Handshake(k, o)
  }

  // ----- readiness ---------------------------------------------------------

  predicate WantsWrite(k: Sock) {
    if !k.tls then k.q.bytes != 0
    else if !k.s.ready then k.s.needWrite
    else if k.s.shutRequested && k.q.bytes == 0 then
      k.s.shutNeedWrite || (!k.s.shutSent && !k.s.shutNeedRead)
    else
      k.s.recvNeedWrite ||
      (!k.s.sendNeedRead && !(k.s.pendingLen != 0 && !k.s.pendingQueued) && k.q.bytes != 0)
  }

  predicate ReadReady(k: Sock, f: Flags) {
    if !k.tls then f.input || f.hup
    else (!k.s.sendNeedRead && (f.input || f.hup)) || (k.s.recvNeedWrite && f.output)
  }

  predicate QueueReady(k: Sock, f: Flags) {
    if !k.tls then f.output
    else if k.s.pendingLen != 0 && !k.s.pendingQueued then false
    else k.q.bytes != 0 && (if k.s.sendNeedRead then f.input else f.output)
  }

  /** Milliseconds until the next deadline: -1 none, 0 due. */
  function TimeoutMs(k: Sock): int {
    if !k.tls || !k.s.live || !k.valid then -1
    else if k.s.ready && !k.s.shutRequested then -1
    else
      var deadline := if k.s.ready then k.s.shutDeadline else k.s.handshakeDeadline;
      if k.now >= deadline then 0 else (deadline - k.now) / NS_PER_MS + 1
  }

  // ----- runs --------------------------------------------------------------

  /** Everything that can happen to a socket: public calls, from the application
      or from inside callbacks, the poller's hooks, and the passing of time.
      PollReceive and the TLS calls exist on TLS sockets only. */
  datatype Op =
    | OpQueueWrite(data: seq<byte>)
    | OpDirectWrite(data: seq<byte>)
    | OpSetLimit(limit: nat)
    | OpSetBlocking(flag: bool)
    | OpConnect(outcome: Outcome)
    | OpClose
    | OpBeginShutdown(timeoutMs: int)
    | OpSetHandshakeTimeout(ms: int)
    | OpSetStrict(strict: bool)
    | OpRead
    | OpPollStep(flags: Flags)
    | OpFlush
    | OpWait(ns: nat)

  /** Options and the clock.  A valid handshake timeout restarts the deadline of
      a handshake under way. */
  function SetOption(k: Sock, op: Op): Sock {
    var timed := op.OpSetHandshakeTimeout? && 100 <= op.ms <= 60000;
    k.(blocking := if op.OpSetBlocking? && k.valid then op.flag else k.blocking,
       now := if op.OpWait? then k.now + op.ns else k.now,
       s := k.s.(strict := if op.OpSetStrict? then op.strict else k.s.strict,
                 handshakeTimeout := if timed then op.ms else k.s.handshakeTimeout,
                 handshakeDeadline := if timed && k.s.live && !k.s.ready then k.now + op.ms * NS_PER_MS
                                      else k.s.handshakeDeadline))
  }

  function Apply(k: Sock, op: Op, o: Oracle): Sock
    requires Valid(k.q)
  {
    match op
    case OpQueueWrite(data) => QueueWrite(k, data).k
    case OpDirectWrite(data) => DirectWrite(k, data, o).k
    case OpSetLimit(limit) => SetMaxQueuedBytes(k, limit).k
    case OpConnect(outcome) => Connect(k, outcome, o)
    case OpClose => Close(k, o)
    case OpBeginShutdown(ms) => BeginShutdown(k, ms).k
    case OpRead => PollReceive(k, o).k
    case OpPollStep(f) => PollStep(k, f, o).0
    case OpFlush => Flush(k, SEND_BUDGET, o).k
    case OpSetBlocking(_) => SetOption(k, op)
    case OpSetHandshakeTimeout(_) => SetOption(k, op)
    case OpSetStrict(_) => SetOption(k, op)
    case OpWait(_) => SetOption(k, op)
  }
}
