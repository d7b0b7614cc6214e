# Verification of libaeon's event transport

A Dafny model of libaeon's event-driven transport and of the three programs built on it, with proofs of
what they keep over every run. The operating system and OpenSSL are arbitrary: every answer they give comes
from an oracle, a parameter or a nondeterministic choice, and each theorem holds for all of them. User
callbacks are arbitrary finite lists of public operations.

The parts, from the inside out:

- **Output queue** (`WriteQueue.dfy`): chunks with a front offset and a byte counter refine a byte FIFO.
  Neighbouring chunks together exceed 16 KiB, which bounds the number of chunks.
- **Transport** (`Transport.dfy`, `TransportInvariant.dfy`, `TransportTheorems.dfy`, `TransportLosses.dfy`,
  `TransportHazards.dfy`, `TransportHistory.dfy`, `TransportAnswers.dfy`, `TransportVerdicts.dfy`,
  `EventSockets.dfy`): one event socket, plain or TLS, as a function of its state and of the answers it gets; an
  invariant of every run; the theorems; what every flag, answer and verdict means in terms of the calls made so
  far; and the socket as an object whose methods update it in place and are tied to those functions. The central
  theorem is the obligation OpenSSL puts on its caller: a blocked `SSL_write` is repeated with the same octets. A
  ghost log of the calls of a session and a ghost account of every accepted byte (written, given up or pending)
  carry the statements.
- **Poller** (`SocketTraces.dfy`, `SocketTurns.dfy`, `IdlePolls.dfy`, `SocketSets.dfy`): registrations, tokens, the
  snapshot and the dispatch loop, with a ghost trace of everything that happens: registrations, retirements, user
  operations, visits, flushes, closes, counted events and callbacks. What poll promises about tokens is an invariant
  of that trace, and what each outcome of a socket's hooks owes its visit is a relation between its stretches.
  `CloseEvidence.dfy` joins it to the transport: what a reported close proves. `JointRuns.dfy` follows many
  TLS sockets through whole sessions of user code and polls.
- **Owned peers** (`PeerCollections.dfy`, `PeerClosing.dfy`, `PeerRetiring.dfy`, `PeerServers.dfy`): two lists kept
  in step and a closing loop that close handlers reenter, with the exact conditions under which it closes everyone.
- **HTTP example** (`HttpText.dfy`, `HttpParse.dfy`, `HttpParser.dfy`, `HttpResponse.dfy`, `HttpStream.dfy`,
  `HttpMeaning.dfy`, `HttpServer.dfy`): the request parser, the response printer with a client's decoder as its
  inverse, the incremental stream engine, shown independent of how the bytes are cut into reads, and what each text
  asks for and has to be told, defined on the text alone.
- **Pong example** (`Pong.dfy`, `PongRules.dfy`, `PongRuns.dfy`, `PongServers.dfy`, `PongFrames.dfy`,
  `PongClients.dfy`): the simulation, its invariant and the rules of the game, the server object with everything it
  ever sends, the client's parser, and the channel between them.
- **UDP peers and descriptors** (`UdpEndpoints.dfy`, `UdpPeers.dfy`, `UdpServers.dfy`, `Descriptors.dfy`): endpoint
  identity across IPv4 and mapped IPv6, the lifetime of logical peers, and a ledger of native descriptors.

`Bytes.dfy`, `Decimal.dfy` and `Wrappers.dfy` hold what several parts share. `dafny verify dfyconfig.toml` checks
everything.

## Where the code meets a property only under a condition

Each of these is proved, with an input or a run for the failing side where there is one.

- A POLLOUT that a TLS socket asked for, whatever flags come with it, leads to an OpenSSL call, with exactly two
  exceptions (`TransportTheorems.WriteInterestIsProductive`). The visit ends the session: a deadline is due,
  POLLERR or POLLNVAL is up, or POLLHUP comes before the handshake is complete or once both the shutdown is under
  way and the peer's close_notify has been seen. Or the application has switched the socket to blocking mode, bytes
  are queued and there is nothing to read: then the flush returns at once and the poller is woken again.
  Connecting, completing the handshake, queueing data and setting blocking mode leads there
  (`TransportHazards.WastedInterestIsReached`).
- An accepted byte of a TLS socket is given up while the socket stays open only by a flush that ends in a fatal
  `SSL_write` or that runs before the handshake is complete (`TransportLosses.FailureHasCause`). The latter makes
  no OpenSSL call (`TransportTheorems.FlushBeforeHandshakeLoses`, both directions). The poller reaches it when a
  data callback reconnects the socket, the system hands out the same descriptor number again and bytes are queued,
  because only the number is compared (`TransportHazards.ReconnectInCallbackLosesQueue`).
- If the peer's close_notify arrives while a direct write waits to be repeated and bytes are queued, neither can
  proceed until the session ends: by its shutdown deadline, an error flag, or a hangup
  (`TransportHazards.StrandedUntilEnd`). Among all operations that read is the only way in
  (`TransportHazards.StrandedOnlyByPeerClose`), close and a client's connect are the only ways out
  (`TransportHazards.StrandedStays`), and five operations after construction lead there
  (`TransportHazards.StrandedIsReached`). If a read had to wait to write before, write interest stays up as well
  and the poller reads on every writable event until then (`TransportHazards.StrandedSpins`,
  `TransportHazards.SpinningIsReached`).
- Closing all owned peers closes everyone exactly when no turn of the loop steps over an open peer, for handlers
  that close no other open peer (`PeerClosing.CloseOwnedClosesAllIff`). A turn steps over the peers that move into
  the places of all but one of those retired at or before its slot (`PeerClosing.TurnKeepsPrefix`, both
  directions); an example has four peers (`PeerClosing.DoubleRetirementSkips`). Conditions that can be read off
  before the call: handlers that retire nobody but their own peer, whatever else they do, are always fine
  (`PeerClosing.RetireThemselvesClosesAll`), and so are handlers that retire or close at most one peer each,
  whichever it is (`PeerClosing.TouchOneClosesAll`); and where handlers retire their own peer or peers of a front
  part of the list, everyone is closed exactly when each handler but the last peer's retires at most one peer that
  no handler before it retires (`PeerRetiring.TwoGenerationsExactly`).
- While both Pong seats stay taken, fewer than 19 ticks pass without a paddle hit or a score (`Pong.PlayGoesOn`).

## Model

| member | source | states |
|---|---|---|
| Bytes.BytesHash | src/ssl_event_socket.cpp:35-42 | the loop computes the 64-bit FNV-1a digest of the first size octets, with wrap-around multiplication; OneOctetTells and PublishedDigests say what that digest is |
| Bytes.OneOctetTells | src/ssl_event_socket.cpp:35-42 | two texts of one length that differ in exactly one octet have different digests: the low octet of a digest depends on low octets only, and there each step is injective |
| Bytes.PublishedDigests | src/ssl_event_socket.cpp:35-42 | the digests of the empty text, of "a" and of "b" are the published FNV-1a values |
| WriteQueue.EmptyIffNoBytes | src/event_socket.cpp:152-153 | in a valid queue the byte counter is zero exactly when there is no chunk, so the front chunk the flush takes exists and has bytes left |
| WriteQueue.PushAppends | src/event_socket.cpp:118-128 | an accepted push keeps the queue valid and appends exactly its bytes to the pending ones, whether it joins the last chunk or starts a new one |
| WriteQueue.PushCoalesces | src/event_socket.cpp:119-127 | after a push any two neighbouring chunks still total more than 16384 bytes |
| WriteQueue.PushKeepsFront | src/event_socket.cpp:122-127 | a push never changes the bytes already at the front: what was offered before is still a prefix of the front chunk from the same offset |
| WriteQueue.OfferIsOldest | src/event_socket.cpp:153-164 | what a flush offers from the front chunk is the oldest pending bytes |
| WriteQueue.ConsumeRemoves | src/event_socket.cpp:191-198 | after a partial send exactly the sent prefix leaves the pending bytes, the counter agrees and the queue stays valid, also when the chunk is used up |
| WriteQueue.ChunkCountBound | src/event_socket.cpp:119-127 | a nonempty valid queue holds at most 2 * ((bytes - 1) / 16385) + 2 chunks, however small the writes were |
| WriteQueue.ChunkCountBoundReached | src/event_socket.cpp:119-127 | the bound is reached for every k: queue writes and one partial send lead to 16385 * k + 2 bytes in 2 * k + 2 chunks |
| Transport.SendKeepsQueue | src/event_socket.cpp:164 | a transport hook never touches the output queue it is fed from (also src/ssl_event_socket.cpp:409-472) |
| Transport.FlushStep | src/event_socket.cpp:152-199 | one round of the flush: an interruption leaves the counter alone and is granted at most four times; progress takes at least one byte, at most what the budget leaves, and shrinks the queue, so the flush ends |
| TransportInvariant.QueueWriteKeeps | src/event_socket.cpp:112-130 | queue_write keeps the whole invariant: accounting, retry safety, shutdown silence |
| TransportInvariant.SetLimitKeeps | src/event_socket.cpp:101-106 | set_max_queued_bytes keeps the invariant, and with it that the counter never exceeds the limit, so the unsigned subtraction in queue_write cannot wrap |
| TransportInvariant.QueuedRetryMatches | src/ssl_event_socket.cpp:429-441 | an offer that begins like the front of the queue and is at least as long as the blocked write passes the length and digest comparison |
| TransportInvariant.RetryFitsOffer | src/event_socket_set.cpp:424 | if the budget left covers the blocked write, so does the offer cut to the front chunk and that budget; each flush starts with the full constant budget (also src/event_socket.cpp:155-156) |
| TransportInvariant.SslWriteKeeps | src/ssl_event_socket.cpp:442-471 | an SSL_write whose plaintext may be presented keeps the log a correct sequence of attempts and repetitions |
| TransportInvariant.OfferKeeps | src/event_socket.cpp:164-199 | offering the front of the queue to the transport and taking what it wrote keeps the invariant (also src/ssl_event_socket.cpp:415-472) |
| TransportInvariant.DirectWriteKeeps | src/event_socket.cpp:263-280 | a direct write at any moment keeps the invariant (also src/ssl_event_socket.cpp:415-472) |
| TransportInvariant.FlushStepKeeps | src/event_socket.cpp:152-199 | each round of a flush keeps the invariant and moves a prefix of the pending bytes to written, or all of them to given up |
| TransportInvariant.FlushFromKeeps | src/event_socket.cpp:152-199 | so does the rest of a flush from any point, within its budget |
| TransportInvariant.FlushKeeps | src/event_socket.cpp:134-202 | a whole flush with the poller's budget keeps the invariant (also src/event_socket_set.cpp:424-425) |
| TransportInvariant.CloseKeeps | src/ssl_event_socket.cpp:247-273 | close keeps the invariant and settles the account: pending bytes become given up, the session's flags are cleared (also src/event_socket.cpp:246-257) |
| TransportInvariant.ConnectKeeps | src/ssl_event_socket.cpp:163-188 | connecting, successful or not, keeps the invariant |
| TransportInvariant.HandshakeKeeps | src/ssl_event_socket.cpp:350-371 | a handshake call keeps the invariant whatever OpenSSL answers |
| TransportInvariant.PollReceiveKeeps | src/ssl_event_socket.cpp:374-408 | a read keeps the invariant, including the start of our half of the shutdown on the peer's close_notify |
| TransportInvariant.BeginShutdownKeeps | src/ssl_event_socket.cpp:192-209 | begin_graceful_shutdown keeps the invariant |
| TransportInvariant.PollStepKeeps | src/ssl_event_socket.cpp:275-372 | poll_step keeps the invariant in every branch |
| TransportInvariant.ApplyKeeps | src/event_socket.cpp:101-202 | every public operation and poller hook keeps the invariant (also src/ssl_event_socket.cpp:192-494) |
| TransportInvariant.InitialInv | src/event_socket.cpp:57-64 | a new client socket and an accepted one satisfy the invariant (also src/ssl_event_socket.cpp:45-59) |
| TransportInvariant.RunKeeps | src/event_socket.cpp:96-280 | so does every state reached by any sequence of operations under any answers (also src/ssl_event_socket.cpp:163-494) |
| TransportTheorems.RetriesRepeat | src/ssl_event_socket.cpp:429-462 | in every run the SSL_write after a blocked one repeats it: same kind, length and digest, and for queued data the very same octets |
| TransportTheorems.QueuedRetriesNeverMismatch | src/ssl_event_socket.cpp:434-440 | no flush in any run reaches the mismatch branch for queued data (also src/event_socket.cpp:152-199) |
| TransportTheorems.QueueIsFifo | src/event_socket.cpp:112-202 | accepted bytes are, in order, those written or given up followed by those pending; the counter is the pending length and within the limit; what OpenSSL, or the system for a plain socket, took from the queue is exactly the written part; without a failed flush nothing is lost |
| TransportTheorems.EachFlushWritesPrefix | src/event_socket.cpp:134-202 | one flush writes a prefix of the pending bytes no longer than its budget, keeps the rest or gives it up exactly when it fails, and reports drained exactly when a nonempty queue was written out |
| TransportTheorems.FlushWritesPrefix | src/event_socket.cpp:134-202 | so does every flush of every run |
| TransportTheorems.DirectNeverOvertakes | src/ssl_event_socket.cpp:422-428 | every SSL_write of direct data finds nothing queued or repeats a blocked direct write |
| TransportTheorems.NoWriteFollowsShutdown | src/ssl_event_socket.cpp:303-334 | after an SSL_shutdown no later call of that session is an SSL_write (also src/ssl_event_socket.cpp:415-421) |
| TransportLosses.ShutdownFollowsAllData | src/ssl_event_socket.cpp:303-313 | while a session that has sent its close_notify lives, nothing is pending, no write is accepted, and OpenSSL took every accepted byte unless a flush failed; then the run holds the flush that did, which ended in a fatal SSL_write or came before the handshake was complete (also src/event_socket.cpp:112-118, src/event_socket.cpp:173-180) |
| TransportLosses.OnlyFlushFails | src/event_socket.cpp:173-189 | no operation but a failed flush adds to the failures on record |
| TransportLosses.FailureHasCause | src/event_socket.cpp:173-189 | in every run a failure on record stems from a flush since the last connect that failed, and with a complete handshake its last OpenSSL call is a queued SSL_write that is neither taken nor to be repeated (also src/ssl_event_socket.cpp:444-471) |
| TransportTheorems.FlushBeforeHandshakeLoses | src/ssl_event_socket.cpp:415-421 | a TLS flush gives bytes up without an OpenSSL call exactly when it flushes a nonempty queue of a valid nonblocking socket before the handshake is done (also src/event_socket.cpp:173-180) |
| TransportTheorems.FlushFailsLoudly | src/event_socket.cpp:165-181 | a flush of a ready session that fails ends in a fatal SSL_write of queued data, whatever it wrote before (also src/ssl_event_socket.cpp:444-471) |
| TransportTheorems.OrderlyCloseNeedsCloseNotify | src/ssl_event_socket.cpp:275-334 | poll_step returns 3 only when the log shows the peer's close_notify and poll_receive never returns 0, so a truncated stream ends as an error (section 6.1 of RFC 8446) (also src/ssl_event_socket.cpp:374-408) |
| TransportTheorems.WriteInterestIsProductive | src/ssl_event_socket.cpp:473-494 | in every reachable state a wanted POLLOUT, whatever flags come with it, makes no OpenSSL call exactly when the visit ends the session or a blocking-mode socket has bytes to flush and nothing to read (also src/ssl_event_socket.cpp:275-349, src/event_socket_set.cpp:361-425) |
| TransportTheorems.FlushCalls | src/event_socket.cpp:134-164 | a flush of a ready session's nonempty queue reaches SSL_write exactly when the socket is nonblocking |
| TransportTheorems.DeadlinesFire | src/ssl_event_socket.cpp:228-245 | a due deadline fails the next poll_step whatever the readiness; waiting out the reported timeout makes it due and one millisecond less would not have passed it (also src/ssl_event_socket.cpp:275-293) |
| TransportHistory.FlagsReadTheLog | src/ssl_event_socket.cpp:275-372 | in every reachable state each flag of a live session is what the log of its OpenSSL calls says: ready, which way it waits, the retry to make, the peer's close, the shutdown and its deadline, failure (also src/ssl_event_socket.cpp:374-472) |
| TransportHistory.ReadyIsVerified | src/ssl_event_socket.cpp:350-371 | a session is ready exactly if its log holds a completed handshake that was verified, unless it was a server's or verification was off; every other call comes after that one, every handshake call before it or it itself |
| TransportAnswers.QueueWriteAnswer | src/event_socket.cpp:112-130 | in every reachable state a write is accepted exactly if the socket is valid, connected and nonblocking, no shutdown of its session is under way, and the data fits the limit beside what is pending; then pending and accepted grow by exactly the data, and otherwise nothing changes |
| TransportAnswers.SetLimitAnswer | src/event_socket.cpp:101-106 | the limit changes exactly if what is pending fits the new one |
| TransportAnswers.PromisesAreKept | src/event_socket.cpp:112-202 | the concatenation of all writes answered true since the socket was connected is what was written, given up or is pending, in that order; while no flush fails, an open socket has written or still holds all of it |
| TransportAnswers.DirectWriteAnswer | src/ssl_event_socket.cpp:415-472 | a direct write on a TLS socket makes one SSL_write of all its data exactly if the session is up and not closing and the data repeats the blocked direct write or finds nothing queued; otherwise nothing happens and it is to be tried again exactly if only the queue stands before it (also src/event_socket.cpp:263-280) |
| TransportAnswers.ChangedRetryIsRefused | src/ssl_event_socket.cpp:434-440 | a direct write that blocked cannot be replaced by a text of its length that differs in one octet: no OpenSSL call is made and the write fails for good |
| TransportAnswers.WriteTells | src/ssl_event_socket.cpp:442-471 | what an SSL_write takes and whether it must be repeated, for every answer |
| TransportAnswers.PlainWriteAnswer | src/event_socket.cpp:263-280 | a direct write on a plain socket is one send of all its data, and answers what the system answered |
| TransportAnswers.FlushGoesOn | src/event_socket.cpp:134-202 | a flush that stops before its budget and before the queue is empty was told so by its last call: a failed flush by a fatal answer or one that claims more than it was shown, any other by a blocked write, no progress, no room or the fifth interruption in a row; no call follows five interruptions |
| TransportVerdicts.HandshakeVerdict | src/ssl_event_socket.cpp:275-371 | until the session is secured a visit makes a handshake call exactly if its readiness has come and nothing ends it; the verdict is 2 and the session ready exactly if that call completes the handshake, verified if verification was in force; an unverified one in strict mode gives -1 and leaves the session not ready |
| TransportVerdicts.ConnectedMeansSecured | src/ssl_event_socket.cpp:350-371 | in every reachable state poll_step returns 2 exactly if it has just made the call that secured the session |
| TransportVerdicts.OpenVerdict | src/ssl_event_socket.cpp:284-349 | a session that is up and not closing passes every visit on to the application's data, and fails on an error flag |
| TransportVerdicts.ClosingVerdict | src/ssl_event_socket.cpp:284-334 | a closing session calls SSL_shutdown exactly when it is in time, the transport stands, every queued octet is out and the readiness it waits for has come; the verdict in each case |
| TransportVerdicts.ReadAnswer | src/ssl_event_socket.cpp:374-408 | a read of an open session is one SSL_read; data is reported exactly if there was some, an error exactly if it was fatal, and a close_notify looks like a wait; before the handshake a read makes no call and fails |
| TransportVerdicts.WaitsAreResumed | src/ssl_event_socket.cpp:484-494 | with the readiness a read or write waits for, the poller reads again, or flushes and the flush begins by repeating the blocked write, octet for octet (also src/event_socket_set.cpp:385-425) |
| TransportVerdicts.InterestIsExact | src/ssl_event_socket.cpp:473-483 | for a nonblocking session in time POLLOUT is asked for exactly if a visit with nothing but POLLOUT makes an OpenSSL call |
| TransportVerdicts.BeginAnswer | src/ssl_event_socket.cpp:192-209 | a graceful shutdown begins exactly if the timeout is between 100 ms and a minute, the session is up and sound, nothing has started its shutdown and no direct write waits to be repeated; a refusal changes nothing |
| TransportVerdicts.ClosingIsTimed | src/ssl_event_socket.cpp:228-236 | a closing session ends at the timeout asked for after its beginning, or five seconds after the peer's close_notify, whichever came first, and not before; the reported timeout is due from then on (also src/ssl_event_socket.cpp:192-209, src/ssl_event_socket.cpp:284-293) |
| TransportVerdicts.HandshakeIsTimed | src/ssl_event_socket.cpp:215-226 | the handshake deadline is set by a connect and by each accepted change of the timeout while the handshake lasts, to that timeout from then, and by nothing else (also src/ssl_event_socket.cpp:81-113) |
| TransportVerdicts.CloseAnswer | src/ssl_event_socket.cpp:247-273 | close gives up what is pending, in order, and ends the session; it makes one last SSL_shutdown exactly for a sound session whose peer has not closed and which has not sent its alert (also src/event_socket.cpp:246-257) |
| TransportVerdicts.ConnectAnswer | src/ssl_event_socket.cpp:163-188 | connect ends what was there, and with a connection established starts an empty queue and a new session whose handshake is due; refused on an accepted socket |
| TransportHazards.ReconnectInCallbackLosesQueue | src/event_socket_set.cpp:420-425 | a callback that reconnects and queues data under a reused descriptor number loses that data in the flush that follows (also src/ssl_event_socket.cpp:163-177) |
| TransportHazards.StrandedUntilEnd | src/ssl_event_socket.cpp:284-305 | with a direct write to repeat, queued bytes and a requested shutdown, a visit ends the session exactly when the deadline is due, an error flag is up, or the peer hangs up after its close_notify; until then writes are refused, the queue is not flushed, and write interest is raised exactly if a read waits to write (also src/ssl_event_socket.cpp:473-494) |
| TransportHazards.StrandedSpins | src/ssl_event_socket.cpp:374-398 | if a read waits to write, each POLLOUT leads to a read that brings the close_notify again and leaves everything as it was (also src/ssl_event_socket.cpp:473-489) |
| TransportHazards.SpinningIsReached | src/ssl_event_socket.cpp:163-494 | a concrete run that reaches it: connect, handshake, a direct write that blocks, a queued write, a read that waits to write, the peer's close_notify |
| TransportHazards.StrandedStays | src/ssl_event_socket.cpp:163-494 | of all operations exactly close and a client's connect lead out of that state; the others leave the queue and the account of its bytes alone (also src/event_socket.cpp:101-202) |
| TransportHazards.StrandedForLong | src/ssl_event_socket.cpp:163-494 | so in any run without those two no stranded byte moves |
| TransportHazards.StrandedOnlyByPeerClose | src/ssl_event_socket.cpp:163-494 | of all operations only a read leads into that state, exactly when it brings the peer's close_notify while a direct write waits to be repeated and bytes are queued (also src/event_socket.cpp:101-202) |
| TransportHazards.FlushNeverStrands | src/event_socket.cpp:134-202 | a flush, however many writes it makes, never leads into it (also src/ssl_event_socket.cpp:415-472) |
| TransportHazards.StrandedIsReached | src/ssl_event_socket.cpp:163-494 | a concrete run that reaches it: connect, handshake, a direct write that blocks, a queued write, the peer's close_notify |
| TransportHazards.WastedInterestIsReached | src/ssl_event_socket.cpp:473-494 | a concrete run after which every wanted POLLOUT leads to no OpenSSL call: connect, handshake, a queued write, blocking mode (also src/event_socket.cpp:134-135) |
| CloseEvidence.SetCloseNeedsCloseNotify | src/event_socket_set.cpp:373-395 | for a TLS socket in any run, a visit whose hooks answer as the transport does may report a set-level close only on verdict 3, and then the peer's close_notify has been seen (also src/ssl_event_socket.cpp:275-334, src/ssl_event_socket.cpp:374-408) |
| CloseEvidence.ReportedClosesAreEvidenced | src/event_socket_set.cpp:334-474 | every close event that a poll reports for a TLS socket belongs to a visit by which the peer's close_notify is in the session's log (also src/ssl_event_socket.cpp:275-334, src/ssl_event_socket.cpp:374-408) |
| JointRuns.Visit | src/event_socket_set.cpp:334-438 | a visit with arbitrary callbacks on any sockets keeps every socket in the state of one run of its own, and every close report evidenced |
| JointRuns.Rounds | src/event_socket_set.cpp:259-477 | so does any session of user code and polls |
| JointRuns.VisitDeeds | src/event_socket_set.cpp:334-438 | a visit that meets an open TLS socket and whose callbacks do nothing performs on it exactly poll_step, then by its verdict close, or read and flush as their readiness says and close as their outcome demands, and reports a close exactly by verdict 3 |
| JointRuns.SessionPromises | src/event_socket_set.cpp:259-477 | over a whole session of many TLS sockets, each reported close follows a poll_step by which the peer's close_notify is in the log and the poller's own close; and in every session's log blocked writes are repeated, direct data overtakes nothing and nothing is written after a shutdown (also src/ssl_event_socket.cpp:275-472) |
| EventSockets.EventSocket.constructor | src/event_socket.cpp:57-59 | a new client socket is the initial state; without a descriptor, or with one that cannot be nonblocking, it starts closed |
| EventSockets.EventSocket.Accepted | src/ssl_event_socket.cpp:50-59 | an accepted socket; the server side of a TLS session starts at once |
| EventSockets.EventSocket.QueueWrite | src/event_socket.cpp:112-130 | changes queue and account exactly as the specification function, with the same verdict, which QueueWriteAnswer characterises |
| EventSockets.EventSocket.SetMaxQueuedBytes | src/event_socket.cpp:101-106 | likewise for the limit |
| EventSockets.EventSocket.SslWrite | src/ssl_event_socket.cpp:442-471 | one SSL_write and what the session remembers of it, for each answer |
| EventSockets.EventSocket.SendTls | src/ssl_event_socket.cpp:415-472 | send_tls as the specification function, whose log and flags the theorems are about |
| EventSockets.EventSocket.PollSendQueued | src/event_socket.cpp:75-77 | the hook of a plain or a TLS socket (also src/ssl_event_socket.cpp:412-414) |
| EventSockets.EventSocket.DirectWrite | src/event_socket.cpp:263-280 | a direct write (also src/ssl_event_socket.cpp:409-411) |
| EventSockets.EventSocket.InitSession | src/ssl_event_socket.cpp:81-113 | resets every session flag and sets the handshake deadline |
| EventSockets.EventSocket.OfferFront | src/event_socket.cpp:153-198 | one round of the flush loop |
| EventSockets.EventSocket.FlushQueued | src/event_socket.cpp:134-202 | the flush loop, tied to the recursive specification by its invariant; it ends by bytes left and interruptions left |
| EventSockets.EventSocket.Close | src/ssl_event_socket.cpp:247-273 | at most one immediate close_notify, then session, queue and descriptor go (also src/event_socket.cpp:246-257) |
| EventSockets.EventSocket.Connect | src/ssl_event_socket.cpp:163-188 | teardown of an earlier session, a new descriptor, a new session; refused on an accepted socket |
| EventSockets.EventSocket.Handshake | src/ssl_event_socket.cpp:350-371 | one handshake call, recorded with its answer, the outcome of verification and whether it was in force |
| EventSockets.EventSocket.PollReceive | src/ssl_event_socket.cpp:374-408 | one read |
| EventSockets.EventSocket.BeginGracefulShutdown | src/ssl_event_socket.cpp:192-209 | accepted or refused as specified; a refusal changes nothing |
| EventSockets.EventSocket.PollShutdown | src/ssl_event_socket.cpp:312-333 | one SSL_shutdown by the poller |
| EventSockets.EventSocket.ShutdownStep | src/ssl_event_socket.cpp:284-334 | the shutdown branches of poll_step in order |
| EventSockets.EventSocket.PollStep | src/ssl_event_socket.cpp:275-372 | poll_step |
| EventSockets.EventSocket.PollTimeoutMs | src/ssl_event_socket.cpp:228-245 | the reported deadline |
| EventSockets.EventSocket.Perform | src/event_socket.cpp:96-280 | any operation changes the object as the specification step over which runs are defined (also src/ssl_event_socket.cpp:163-494) |
| SocketTraces.ServeKeeps | src/event_socket_set.cpp:334-474 | using, visiting, flushing or calling back through a token that is active and older than the poll keeps the trace clean: retired tokens stay silent, newcomers wait for a later poll, one visit per token and poll, and nothing is served under another descriptor than the one watched |
| SocketTraces.RegisterKeeps | src/event_socket_set.cpp:60-66 | registering appends a new active token and keeps the trace clean |
| SocketTraces.RetireKeeps | src/event_socket_set.cpp:68-84 | retiring deactivates one token for good and keeps the trace clean |
| SocketTraces.OneTokenPerSocket | src/event_socket_set.cpp:60-66 | at most one active token exists for a socket (also src/event_socket_set.cpp:106-111) |
| SocketTraces.WatchListTokens | src/event_socket_set.cpp:270-285 | the snapshot names distinct registered tokens |
| SocketTraces.PollBegins | src/event_socket_set.cpp:270-271 | when a poll begins every token is older than it and none has been visited in it |
| SocketTraces.StillUnvisited | src/event_socket_set.cpp:334-340 | the visit of one watched token leaves all later ones unvisited in this poll |
| SocketTurns.TurnIsAnswered | src/event_socket_set.cpp:334-474 | a turn visits its socket exactly if it is ready and still registered under the watched descriptor, and then, whatever callbacks do, each outcome of the hooks has exactly its effects: octets both data callbacks, end of stream or verdict 3 a close and its report, verdict 2 the connect callbacks, a failure both error callbacks and the close it warrants, a ready queue a flush and then the drain callbacks or the error, a listener or datagram its own; the second of two callbacks follows exactly if the socket survived the first, and each is counted |
| SocketTurns.TurnsAreAnswered | src/event_socket_set.cpp:334-475 | so is every turn of every poll |
| IdlePolls.IdlePoll | src/event_socket_set.cpp:334-475 | a poll whose callbacks do nothing enters exactly the callbacks that a table of the hooks' outcomes lists, socket by socket in snapshot order |
| IdlePolls.IdlePollServes | src/event_socket_set.cpp:334-475 | and it visits and answers every ready socket of the snapshot |
| SocketSets.EventSocketSet.AddSocket | src/event_socket_set.cpp:60-66 | adds exactly one token for an unregistered socket and refuses a registered one (also src/event_socket_set.cpp:194-204) |
| SocketSets.EventSocketSet.Retire | src/event_socket_set.cpp:68-84 | removes one entry and deactivates its token |
| SocketSets.EventSocketSet.RemoveSocket | src/event_socket_set.cpp:76-84 | succeeds exactly for a registered socket, which is unregistered afterwards (also src/event_socket_set.cpp:205-210) |
| SocketSets.EventSocketSet.RemoveAt | src/event_socket_set.cpp:68-74 | indexes TCP registrations first, UDP registrations after them (also src/event_socket_set.cpp:197-201) |
| SocketSets.EventSocketSet.Fire | src/event_socket_set.cpp:224-255 | a callback needs an active token older than the poll; it enters the trace, followed by exactly the operations user code performs, whatever these are, and the set stays valid |
| SocketSets.EventSocketSet.FireBoth | src/event_socket_set.cpp:390-391 | the socket's callback always, the set's exactly if the token survived it (also src/event_socket_set.cpp:452-453) |
| SocketSets.EventSocketSet.ReportError | src/event_socket_set.cpp:365-369 | both error callbacks, and the close if it is due and the socket as the branch demands, each re-checked after the callback before (also src/event_socket_set.cpp:403-408) |
| SocketSets.EventSocketSet.ReadStream | src/event_socket_set.cpp:385-419 | the read half of a visit: octets fire both data callbacks, end of stream closes and reports, an error is reported and closed if it ends the connection; each is counted |
| SocketSets.EventSocketSet.FlushStream | src/event_socket_set.cpp:420-438 | the write half: a ready queue is flushed exactly if the token survives under the same descriptor, then drain callbacks or the error follow; otherwise the socket is merely looked at |
| SocketSets.EventSocketSet.FollowVerdict | src/event_socket_set.cpp:361-384 | the verdicts of poll_step that leave no room for data: failure reported and closed, verdict 3 closed and reported, verdict 2 announced, and each counted |
| SocketSets.EventSocketSet.VisitStream | src/event_socket_set.cpp:360-438 | every verdict of poll_step leads to its own effects |
| SocketSets.EventSocketSet.VisitListener | src/event_socket_set.cpp:345-359 | a listening socket is announced if readable, and otherwise its error reported |
| SocketSets.EventSocketSet.VisitDatagram | src/event_socket_set.cpp:439-474 | a received datagram, also an empty one, fires both datagram callbacks; an error both error callbacks |
| SocketSets.EventSocketSet.Visit | src/event_socket_set.cpp:334-474 | one turn of the dispatch loop is a Turn from the old trace to the new, which TurnIsAnswered spells out; it concerns its own token only and does nothing but look at a retired or replaced socket |
| SocketSets.EventSocketSet.Snapshot | src/event_socket_set.cpp:270-285 | the open registered sockets in list order |
| SocketSets.EventSocketSet.WatchingIsComplete | src/event_socket_set.cpp:270-285 | every registered open socket is watched, stream sockets before datagram sockets and each kind in order of registration |
| SocketSets.EventSocketSet.Perform | src/event_socket_set.cpp:194-210 | each operation of user code changes registrations and descriptors as its name says, and nothing else |
| SocketTraces.ReportedMore | src/event_socket_set.cpp:334-474 | what one visit may report and serve adds to what the poll may |
| SocketSets.EventSocketSet.Dispatch | src/event_socket_set.cpp:334-475 | the loop keeps the set valid whatever callbacks do; the trace is cut into one Turn for each socket of the snapshot, in order; each reported close is allowed by the hooks of the visit that reports it, each visit and flush is of a snapshot entry under its descriptor; the result counts the events |
| SocketSets.EventSocketSet.Poll | src/event_socket_set.cpp:259-477 | a poll is a Turn of each socket open and registered when it began, and of no other, under the descriptors they had then; it answers how many events it counted, at most two per socket, refuses reentry, reports a close only where the hooks of that socket's visit allow it, and keeps every promise about tokens for the life of the set |
| PeerCollections.AddPeer | src/socket_set.cpp:24-38 | both lists grow together and stay equal, duplicate-free and disjoint from the retired peers |
| PeerCollections.RemoveOwnedPeer | src/socket_set.cpp:40-58 | the peer is detached from both lists before its handler runs and is not owned afterwards; the lists are in step whenever user code runs |
| PeerCollections.CloseOwned | src/socket_set.cpp:60-80 | the loop ends under any handlers, keeps the lists in step, closes no peer twice, and only removes peers or appends to the owned list |
| PeerCollections.CloseFrom | src/socket_set.cpp:67-73 | the same from any slot; it ends by unclosed peers and remaining slots |
| PeerClosing.AddPeerAnswer | src/socket_set.cpp:24-38 | a peer joins the end of both lists exactly if it is open and not owned yet, and nobody else is touched |
| PeerClosing.RemoveAlone | src/socket_set.cpp:40-58 | when handlers do nothing, retiring an owned peer takes exactly it out of both lists, the others in order, and closes it |
| PeerClosing.CloseOwnedAlone | src/socket_set.cpp:60-80 | when handlers do nothing, each open owned peer is closed once and in order, and neither list changes |
| PeerClosing.ReentrantClosing | src/socket_set.cpp:60-61 | while a closing is under way another one does nothing |
| PeerClosing.NextSlot | src/socket_set.cpp:68-72 | how the slot moves: past the peer just closed if nobody at or before it was retired, and not at all otherwise |
| PeerClosing.TurnKeepsPrefix | src/socket_set.cpp:68-72 | a turn leaves everyone before the next slot closed exactly when it steps over no open peer |
| PeerClosing.NoneSteppedOverClosesAll | src/socket_set.cpp:67-73 | if no turn steps over an open peer, everyone owned at the end is closed, whatever else handlers do |
| PeerClosing.PassedIsLeftOpen | src/socket_set.cpp:67-73 | an open peer the slot has passed is still open at the end if handlers close no other open peer |
| PeerClosing.ClosesAllIffNoneSteppedOver | src/socket_set.cpp:67-73 | with such handlers the loop closes everyone exactly when no turn steps over an open peer |
| PeerClosing.CloseOwnedClosesAllIff | src/socket_set.cpp:60-80 | the same for the whole of close_owned_peers, for everyone owned before or after it |
| PeerClosing.CloseOwnedClosesAll | src/socket_set.cpp:60-80 | if each turn retires at most one peer at or before its slot, close_owned_peers closes everyone, even with handlers that close others |
| PeerClosing.RetireThemselvesClosesAll | src/socket_set.cpp:60-80 | a condition on the handlers alone: if none retires anyone but its own peer, everyone is closed |
| PeerClosing.CloseRetiresOne | src/socket_set.cpp:60-80 | if each handler retires or closes at most one peer, all those retired in one close but one were open before |
| PeerClosing.TouchOneClosesAll | src/socket_set.cpp:60-80 | another condition on the handlers alone: if each retires or closes at most one peer, whichever it is, everyone is closed |
| PeerRetiring.ConsiderateIsOnlyOwn | src/socket_set.cpp:60-80 | a condition on the handlers of the peers owned or ever accepted: if they retire and close only their own peer and peers not open before, no handler ever closes another open peer |
| PeerRetiring.TwoGenerationsExactly | src/socket_set.cpp:60-80 | for open peers whose own handlers retire their peer or, behind a front part, peers of that part: close_owned_peers closes everyone exactly when each handler but the last peer's retires at most one peer that no handler before it retires |
| PeerClosing.DoubleRetirementSkips | src/socket_set.cpp:67-73 | four peers where the third one's handler retires the first two: the fourth stays open |
| PeerServers.PeerCollection.AddPeer | src/socket_set.cpp:24-38 | the object changes as specified |
| PeerServers.PeerCollection.RemoveOwnedPeer | src/socket_set.cpp:40-58 | the object changes as specified, handlers included |
| PeerServers.PeerCollection.RemoveMember | src/socket_set.cpp:46-51 | the search loop takes out the first occurrence and nothing else (also src/socket_set.cpp:141-153) |
| PeerServers.PeerCollection.CloseOwnedPeers | src/socket_set.cpp:60-80 | the reentrant loop equals its specification, restores its guard, and reports a change exactly when a peer was closed |
| HttpText.TrimView | example/http_server.cpp:21-25 | the two loops compute the trimmed text |
| HttpText.TrimUnwraps | example/http_server.cpp:21-25 | trimming removes any blanks around a core that neither starts nor ends with one |
| HttpText.LowerCopy | example/http_server.cpp:13-19 | the loop lower-cases every letter and nothing else |
| HttpText.TokenName | example/http_server.cpp:27-35 | accepts exactly nonempty text of token characters |
| HttpText.ContainsToken | example/http_server.cpp:37-46 | answers whether some comma-separated item, trimmed and lower-cased, is the option |
| HttpText.ItemsJoin | example/http_server.cpp:149-150 | the items of two lists joined by a comma are the items of both |
| HttpText.NamesJoin | example/http_server.cpp:37-46 | so joining two lists unites their options |
| HttpText.LoneOption | example/http_server.cpp:37-46 | a lone option is recognised whatever its case and blanks |
| HttpParser.PlainText | example/http_server.cpp:79-84 | accepts exactly printable ASCII with CR, LF and TAB |
| HttpParser.ParseLength | example/http_server.cpp:137-144 | accepts exactly nonempty digit strings below 2^64 and computes their value |
| HttpParser.ParseLine | example/http_server.cpp:126-134 | splits, lower-cases, trims and vets one field line |
| HttpParser.TakeField | example/http_server.cpp:135-151 | what one field contributes |
| HttpParser.ParseFields | example/http_server.cpp:113-152 | the cursor loop reads the fields up to the first empty line or error |
| HttpParser.ParseRequest | example/http_server.cpp:71-159 | the parser equals the specification on every input, error codes included |
| HttpParse.AcceptedLength | example/http_server.cpp:71-158 | an accepted request is at least eighteen octets long |
| HttpParse.ShortestIsAccepted | example/http_server.cpp:71-158 | and one of eighteen octets is accepted |
| HttpParse.StartLineSplits | example/http_server.cpp:87-97 | three nonempty words without spaces are read back from their start line |
| HttpParse.ConnectionCollects | example/http_server.cpp:148-155 | the collected connection text names an option exactly when some Connection field does |
| HttpParse.CloseIsPersistence | example/http_server.cpp:107-109 | an accepted request is answered with close exactly when section 9.3 of RFC 9112 says the connection does not persist, on the union of the options of all Connection fields (also example/http_server.cpp:148-155) |
| HttpParse.AcceptedHasNoBody | example/http_server.cpp:137-157 | no field of an accepted request announces a body, so the next request starts right behind it |
| HttpMeaning.TokenCharacters | example/http_server.cpp:27-35 | a token character is one that section 5.6.2 of RFC 9110 lists |
| HttpMeaning.LowerLetters | example/http_server.cpp:13-19 | lower-casing maps the 26 capitals to their small letters and leaves all else |
| HttpMeaning.TrimTrims | example/http_server.cpp:21-25 | trimming leaves the part that lies between the blanks at both ends and neither starts nor ends with one |
| HttpMeaning.SplitIsThreeWords | example/http_server.cpp:87-97 | a start line splits into three words exactly if it is three nonempty words without spaces joined by single spaces |
| HttpMeaning.ReadLineIsField | example/http_server.cpp:126-134 | a line is read as a field exactly if it is a token, a colon and a value, the name then lower-cased and the value trimmed and free of controls |
| HttpMeaning.LinesAreTheText | example/http_server.cpp:113-125 | first line and field lines, each closed by CRLF, are the text up to its empty line |
| HttpMeaning.ErrorIsFirstDefect | example/http_server.cpp:71-159 | parse refuses exactly the texts that have a defect, each with the code of its first: text, start line, version, the first bad field line, missing Host, announced body, method |
| HttpMeaning.AnswerIsTold | example/http_server.cpp:257-273 | the answer to a request text is the page its target names up to the question mark, or the code of its defect, without a body exactly for an accepted request that begins with HEAD and a space, closing as the text says, with version, reason, type, length and Allow |
| HttpMeaning.TranscriptTells | example/http_server.cpp:275-311 | the answers to a client's bytes correspond one to one and in order to the requests in them |
| HttpResponse.BuildResponse | example/http_server.cpp:241-248 | the appended text is the rendering of the response |
| HttpResponse.AnswersAreWritable | example/http_server.cpp:257-273 | every answer to any request has a plain status line and headers; an error always closes, an accepted request closes as it decided |
| HttpResponse.DecodeStep | example/http_server.cpp:241-248 | one rendered response at the front of a stream is read back and leaves the rest |
| HttpResponse.NamedRoundTrip | example/http_server.cpp:241-248 | a header written by name is read back by that name |
| HttpResponse.StreamRoundTrip | example/http_server.cpp:238-273 | given which requests were HEAD, Content-Length delimits every body and the stream reads back as the list of answers in order: version, status, reason, type, length, connection, Allow and body |
| HttpResponse.StreamIsUnambiguous | example/http_server.cpp:238-273 | two lists of answers that look alike on the wire say the same |
| HttpStream.LoopIsDrain | example/http_server.cpp:283-305 | once reads are at most 256 octets the limit of 32 requests per event is out of reach |
| HttpStream.ReceiveIsDrain | example/http_server.cpp:275-311 | one read is answered as an unlimited pass over the buffer: neither the pipelining limit nor the final size check fires (also src/event_socket_set.cpp:333) |
| HttpStream.DrainSplits | example/http_server.cpp:283-305 | draining a buffer and letting more bytes arrive commute |
| HttpStream.ReadsDoNotMatter | example/http_server.cpp:275-311 | however a client's bytes are cut into reads, answers, flags and leftover are those of one pass over the whole (also src/event_socket_set.cpp:333) |
| HttpStream.DrainAnswers | example/http_server.cpp:257-305 | with a queue that accepts everything the answers are the transcript: one per request, in order, ending with the first that closes |
| HttpStream.ClientReadsTranscript | example/http_server.cpp:238-311 | what the client is sent is that transcript and decodes back to it |
| HttpStream.CloseIsLast | example/http_server.cpp:249-254 | the first response marked close is the last one written, also when writes are refused (also example/http_server.cpp:283-306) |
| HttpStream.RefusalIsFinal | example/http_server.cpp:249-254 | whatever the output queue takes, the client is sent the answers before the first refused one and is retired exactly if there is one |
| HttpMeaning.ClientReadsReplies | example/http_server.cpp:238-311 | a client that knows which of its own requests were accepted HEAD requests reads back exactly what each request must be told, in order, with an empty body exactly there |
| HttpServer.HttpPeer.SendResponse | example/http_server.cpp:238-255 | an accepted response is appended to the wire, a refused one retires the client |
| HttpServer.HttpPeer.HandleRequest | example/http_server.cpp:257-273 | a request is answered as its parse demands |
| HttpServer.HttpPeer.ReceiveData | example/http_server.cpp:275-311 | the loop changes buffer, flags and output as specified, and the wire text is the rendering of the answers |
| Decimal.DigitsRoundTrip | example/pong_server.cpp:170-174 | a printed number is a nonempty digit string that denotes it (also example/http_server.cpp:243) |
| Decimal.DigitsShort | example/pong_server.cpp:170-174 | a number below 10^k prints in at most k digits |
| UdpEndpoints.SamePeerIsCanonicalEquality | src/udp_server_socket.cpp:13-40 | the branchy comparison is equality of the endpoints mapped to IPv6 |
| UdpEndpoints.SamePeerIsEquivalence | src/udp_server_socket.cpp:13-40 | hence reflexive, symmetric and transitive on IPv4 and IPv6 endpoints |
| UdpEndpoints.LoopbackIsMapped | src/udp_server_socket.cpp:13-40 | 127.0.0.1 and ::ffff:127.0.0.1 are one peer exactly if the ports agree and there is no scope |
| UdpEndpoints.DestinationIsThePeer | src/udp_socket.cpp:56-76 | a datagram goes to an endpoint equivalent to the peer's, in the socket's family; only an IPv6 peer of an IPv4 socket is refused |
| UdpPeers.StepKeeps | src/udp_server_socket.cpp:42-89 | every operation keeps the peers free of equivalent pairs |
| UdpPeers.NeverTwins | src/udp_server_socket.cpp:42-89 | in no reachable state does a server own two equivalent peers |
| UdpPeers.NoneLeft | src/udp_server_socket.cpp:53-56 | once the closed peer for an endpoint is removed none equivalent is left |
| UdpPeers.GetOwns | src/udp_server_socket.cpp:51-60 | get_peer fails exactly for a closed server or an unsupported family; otherwise its answer is the open peer for that endpoint |
| UdpPeers.GetPeerIsStable | src/udp_server_socket.cpp:42-60 | through any other calls get_peer answers the same object for every equivalent endpoint until that peer or the server is closed, removed or rebound |
| UdpPeers.GetPeerIdentifies | src/udp_server_socket.cpp:42-60 | two endpoints get one peer exactly when they are equal after mapping to IPv6 |
| UdpPeers.EndedIsNeverAnswered | src/udp_server_socket.cpp:42-89 | a peer that was closed or removed, alone, with the server or by a new bind, is never the answer of get_peer again |
| UdpPeers.OthersStay | src/udp_server_socket.cpp:71-82 | removing a peer takes exactly it away, and closing one only closes it |
| UdpServers.UdpServer.FindUdpPeer | src/udp_server_socket.cpp:42-49 | the loop finds the first member that matches |
| UdpServers.UdpServer.GetPeer | src/udp_server_socket.cpp:51-60 | the object changes as specified and the member list stays in step |
| UdpServers.UdpServer.RemovePeer | src/udp_server_socket.cpp:80-82 | removes exactly the named peer (also src/socket_set.cpp:40-58) |
| UdpServers.UdpServer.ClosePeer | src/udp_socket.cpp:38-45 | a logical peer becomes inactive and stays owned |
| UdpServers.UdpServer.CloseOwnedPeers | src/socket_set.cpp:60-80 | every logical peer becomes inactive; a change is reported exactly if one was active (also src/udp_socket.cpp:38-45) |
| UdpServers.UdpServer.Close | src/udp_server_socket.cpp:71-75 | closes the descriptor and every peer |
| UdpServers.UdpServer.Listen | src/udp_server_socket.cpp:64-69 | a successful bind closes every peer, a failed one changes nothing |
| UdpServers.UdpServer.Read | src/udp_server_socket.cpp:85-89 | a received datagram makes or finds its sender's peer |
| Descriptors.Os.Close | src/socket.cpp:446-453 | closing demands an open descriptor; each opening is matched by at most one closing |
| Descriptors.Socket.Close | src/socket.cpp:439-454 | ownership ends first, exactly the object's own descriptor is closed, a second close does nothing |
| Descriptors.Socket.SelectFamily | src/udp_socket.cpp:208-219 | a new configured descriptor or no trace of one |
| Descriptors.Socket.Swap | src/udp_socket.cpp:275-279 | the previous descriptor is closed once, after its replacement is in place (also src/udp_socket.cpp:348-356) |
| Descriptors.Socket.UdpConnect | src/udp_socket.cpp:261-287 | success keeps a fitting descriptor or moves to a new one; failure, which needs a bad argument or a refusal by the system, leaves descriptor, family, destination, port and flag unchanged and leaks nothing |
| Descriptors.Socket.UdpConnectByName | src/udp_socket.cpp:241-258 | the loop over resolved addresses selects one of them or leaves everything unchanged |
| Descriptors.Socket.UdpListen | src/udp_socket.cpp:303-365 | success moves to a new bound descriptor; both families failing, which needs a bad argument or a refusal by the system, leaves everything unchanged and leaks nothing |
| Descriptors.Socket.BindCandidate | src/udp_socket.cpp:313-361 | the same for one family |
| Descriptors.Socket.TcpConnect | src/socket.cpp:1094-1189 | an attempt closes the old descriptor once; failure leaves the object without one and the remote address as it was |
| Descriptors.Socket.TcpListen | src/socket.cpp:1206-1256 | the same for listening; bad arguments change nothing |
| Descriptors.Socket.TcpAccept | src/socket.cpp:1258-1323 | a returned descriptor is new and the caller's; one that cannot be configured is closed again; none is returned only if the system refused something |
| Descriptors.Program.AcceptOn | src/server_socket.cpp:33-48 | an accepted descriptor gets exactly one owner, or is closed (also src/server_event_socket.cpp:32-44) |
| Descriptors.Program.Execute | src/socket.cpp:439-454 | each call on an object does what it promises, and fails only if its arguments are bad or the system refused something (also src/socket.cpp:1094-1256, src/udp_socket.cpp:241-365) |
| Descriptors.Program.DestroyAt | src/socket.cpp:426-433 | destruction closes what the object still holds |
| Descriptors.Program.Perform | src/socket.cpp:439-454 | any call on any object keeps the open descriptors exactly those held by live objects, one holder each (also src/socket.cpp:1094-1256, src/udp_socket.cpp:241-365) |
| Descriptors.Program.RunAndExit | src/socket.cpp:426-454 | in any program under any failures that balance holds throughout, and after all objects are destroyed each opening has been matched by exactly one closing (also src/socket.cpp:1094-1323, src/udp_socket.cpp:208-365) |
| Pong.TickKeeps | example/pong_server.cpp:126-166 | a tick keeps ball and paddles on the board |
| Pong.DatagramKeeps | example/pong_server.cpp:80-117 | so does any datagram from anyone |
| Pong.QuietTickApproaches | example/pong_server.cpp:135-164 | a tick with both seats taken and no hit or score brings the ball one column closer to the goal it flies to |
| Pong.SeatedMessageKeepsRank | example/pong_server.cpp:80-117 | steering and joining do not move the ball |
| Pong.PlayGoesOn | example/pong_server.cpp:126-166 | while both seats stay taken fewer than 19 ticks pass without a hit or a score, whatever the players send |
| PongRules.BallFlies | example/pong_server.cpp:135-164 | with two players who are heard, each tick takes the ball one row and one column on, bouncing at both walls in a round of 22 rows; a paddle that covers its row returns it, and a ball past column 1 or 22 scores for the other side and is served from the middle away from the side that missed it |
| PongRules.BallStands | example/pong_server.cpp:126-135 | without two players the ball stands still, in the middle once somebody has timed out |
| PongRules.PaddleFollows | example/pong_server.cpp:110-116 | U moves the sender's paddle up by one row, D down, N not, within the board, and the other paddle as before (also example/pong_server.cpp:136-139) |
| PongRules.NobodySitsTwice | example/pong_server.cpp:84-100 | over every run no endpoint holds both seats |
| PongRules.JoinSeats | example/pong_server.cpp:84-100 | who asks gets the left seat if free, else the right one, keeps its own, and changes nothing at a full table |
| PongRules.QuitLeaves | example/pong_server.cpp:102-110 | who quits loses its seat and the ball goes to the middle; what anybody without a seat says, other than to join, changes nothing |
| PongRules.SilenceCosts | example/pong_server.cpp:126-134 | a seat is lost after exactly five seconds of silence, over any number of ticks |
| PongRules.HeardStartsAnew | example/pong_server.cpp:111-116 | silence starts anew exactly by asking again or by one of the four commands |
| PongRules.TickTells | example/pong_server.cpp:126-177 | each tick sends every seated player, and nobody else, the state as it then is |
| PongRules.DatagramTells | example/pong_server.cpp:80-117 | who joins is told its seat or FULL first; whatever seats or unseats somebody is then shown to every seated player, and nothing else is sent |
| PongRules.WrittenSnapshot | example/pong_server.cpp:168-177 | one snapshot, letter by letter |
| PongFrames.ExtractPrinted | example/pong-client.cpp:69-70 | a printed number is extracted exactly when it fits the field's type, and then with its value (also example/pong_server.cpp:170-174) |
| PongFrames.ReadPrinted | example/pong-client.cpp:69-70 | a line of printed numbers is read back exactly when each fits (also example/pong_server.cpp:170-174) |
| PongFrames.FrameShort | example/pong-client.cpp:65 | a displayable frame is at most 61 characters, below the client's 128 (also example/pong_server.cpp:170-174) |
| PongFrames.FrameReadBack | example/pong-client.cpp:64-79 | a printed view is accepted exactly when it is on the board and within the integer types, and then read back field for field (also example/pong_server.cpp:168-174) |
| PongFrames.GreetingsAreIgnored | example/pong-client.cpp:65 | the other datagrams the server sends are not taken for snapshots (also example/pong_server.cpp:94-97) |
| PongFrames.FramesAreDistinct | example/pong_server.cpp:170 | two snapshots of one run never print alike |
| PongFrames.ClientShowsLatest | example/pong-client.cpp:64-79 | after any loss, duplication or reordering the client shows the delivered snapshot with the greatest sequence number |
| PongClients.InputStream.ReadNumber | example/pong-client.cpp:69-70 | white space, sign, digits, range and wrap-around as formatted extraction defines them |
| PongClients.InputStream.ReadAll | example/pong-client.cpp:69-70 | eight chained extractions; the first failure fails all |
| PongClients.Client.ParseState | example/pong-client.cpp:64-79 | the view changes only to a complete, well-placed, newer snapshot, and exactly then true is returned |
| PongRuns.PhotographedKeeps | example/pong_server.cpp:168-177 | a snapshot carries the next number, shows the state, and goes to the seated players |
| PongRuns.TickedKeeps | example/pong_server.cpp:126-166 | a tick keeps the printed history numbered and on the board |
| PongRuns.HeardKeeps | example/pong_server.cpp:80-117 | so does any datagram |
| PongRuns.Elapsed | example/pong_server.cpp:192-200 | any elapsed time is played in at most four ticks and less than one tick is left over: ticks and remainder add up to the capped time |
| PongRuns.EveryRunIsShown | example/pong_server.cpp:80-200 | every snapshot of every run is accepted and read back, and a client of any lossy network ends up with the newest one it was delivered (also example/pong-client.cpp:64-79) |
| PongServers.PongServer.FindSeat | example/pong_server.cpp:69-73 | the loop finds the seated sender |
| PongServers.PongServer.TakeSnapshot | example/pong_server.cpp:168-177 | number, print, send to each seated player |
| PongServers.PongServer.AgePlayers | example/pong_server.cpp:127-134 | idle players lose their seats and the ball goes back to the middle |
| PongServers.PongServer.MoveBall | example/pong_server.cpp:136-163 | paddles, bounces, hits and scores |
| PongServers.PongServer.TickOnce | example/pong_server.cpp:126-166 | a whole step |
| PongServers.PongServer.Advance | example/pong_server.cpp:192-200 | the accumulator loop equals its closed form; nothing happens while stopped or polling |
| PongServers.PongServer.ReceiveDatagram | example/pong_server.cpp:80-117 | every command from every sender, with what is sent in return |
| PongServers.PongServer.Poll | example/pong_server.cpp:179-190 | the datagrams of one poll in order; refused while stopped or polling |
| PongServers.PongServer.Start | example/pong_server.cpp:38-46 | succeeds exactly when stopped, not polling, with a valid port and a system that agrees |
| PongServers.PongServer.Stop | example/pong_server.cpp:202-210 | empties both seats and the accumulator, and does nothing during a poll |

## Left out

- OpenSSL itself, certificates, verification and host identity: OpenSSL is an oracle that answers done, wants to
  read, wants to write, close_notify or fatal; each handshake call records whether the peer was verified and
  whether that was in force.
- The blocking `ssl_socket` family, the resolver, address formatting, option setters and callback slots: foreign or
  single-branch code.
- Operating system calls: their results are parameters, oracle answers or nondeterministic choices; error numbers
  are reduced to none, interrupted, would-block and broken, and `get_error` translation is not modelled.
- The wait phase of poll (src/event_socket_set.cpp:286-331), with buffered TLS input, EINTR restarts and the
  recomputed timeout: its outcome and the readiness flags are inputs.
- SocketSets.EventSocketSet.Poll: takes the answers of the socket hooks as inputs; CloseEvidence relates them to
  runs of the transport for one poll; JointRuns follows TLS sockets over many polls, with the outcomes of the
  registration and descriptor checks as inputs instead of tokens.
- Threads and locks: each public operation is one atomic step.
- Exceptions thrown by callbacks or by allocation.
- Windows and macOS variants, including SO_NOSIGPIPE.
- Destroying a registered socket, and editing `peers()` or `remote_addr` from outside: excluded by the library's
  own documentation.
- A peer or token number stands for an object's address and is never reused.
- Close handlers that connect the socket they are closing, from inside connect.
- Descriptors.Socket.TcpConnect: does not model the blocking-mode guard and the connect timeout; they decide only
  whether the attempt succeeds.
- Descriptors.Socket.TcpAccept: does not distinguish timeout, would-block and failure, which all return no
  descriptor.
- UdpServers.UdpServer.GetPeer: keeps peers as records in the list rather than as separate objects.
- The HTTP server's accept loop, idle timeout, client limit and reaping of retired clients: bookkeeping around the
  modelled stream engine.
- HttpStream.ClientReadsTranscript: assumes, like HttpMeaning.ClientReadsReplies, that the output queue takes every
  response; RefusalIsFinal says what is sent otherwise.
- PongRuns.EveryRunIsShown: assumes scores below 2^31 and sequence numbers below 2^64; beyond that the server's
  integers overflow.
- Pong's terminal drawing and main loops, the chat server, the HTTP client and the benchmark.
