# The session server, modelled and proved in Dafny

The server speaks a JSON protocol over WebSocket. Each connection is a session that
authenticates with a handshake, is entered in a registry, then sends actions and reload
requests; a write pipeline, a deadline timer, two traffic checks and a two-phase close
work beside that, some of them from other threads. This project models that machinery and
proves what no single function shows.

## How it is built

* `JsonValues`, `Protocol`, `ProtocolProofs`: JSON values with nlohmann's integer
  conversions, the conversions and validations of the protocol, and what they guarantee.
  `Parsed` has three outcomes: a value, a refusal (the source returns nothing or throws), and
  `Undefined` for the one cast C++ leaves undefined, a fraction too large for its integer type.
* `SessionMachine`: one session as a state machine whose steps are the accesses to shared
  state. A handler is a program counter (`Pc`) that the strand advances; sends, both
  halves of `close()` and timer expiries of other threads come in between any two steps,
  inside handlers as well as between them. What Asio owes the session is counted. A step that
  is not enabled changes nothing, so every sequence of actions is a run, and the theorems
  quantify over all sequences.
* `WritePipeline`, `LostMessages`, `SessionChains`, `SessionClosing`, `SessionLife`,
  `SessionAccount`: theorems about every run of that machine.
* `SessionMessages`, `SessionTraffic`, `ConfiguredSession`: which step a received message
  amounts to, from the traffic checks through parsing to the identity and sequence
  checks. The verdict on a message is proved to fit the session that reached it, so that a
  history of received messages goes through runs of the machine and its theorems carry over.
* `SessionOutcomes`: what comes of a message or an expired deadline once its handler is at its
  end, in raw JSON and written out: a complete table of what is accepted, what is refused with
  which error, and what closes the session. Nothing in it speaks of verdicts
  or of the functions the handlers decide with; whether the traffic checks pass is `RateLimiter`'s matter.
* `Registry`, `ServerSystem`: the registry, and any number of sessions with any number of
  concurrent `stop_all` calls as one transition system, in which drawing an id, entering it and
  storing it in the session are separate steps.
* `SessionObjects`: the session and the connection manager as classes with the source's fields
  and methods. Each handler is proved to leave the object in the state the machine reaches when it
  runs the same handler to its end.
* `RateLimiter`, `SessionIds`, `Metrics`, `RuntimeConfig`, `AcceptChain`: the rate limiter
  and burst check, session ids, timing percentiles, configuration, and the accept loop.

Asio is assumed to run one handler of a strand at a time, to complete every operation once, and to
deliver `operation_aborted` for waits that are cancelled before they expire. The handlers of the accept
chain run one at a time, on the one thread `src/server/main.cpp:95` gives the `io_context`; a stop
may come from any other thread. Clock readings, random
numbers, parsed JSON and the outcome of every I/O operation are parameters.

## Where the code and its comments disagree

The model follows the code.

* Session ids have sixteen hexadecimal digits; the comment at `src/common/protocol.hpp:103` says 32.
* `is_number_integer()` is true of unsigned numbers, so the `is_number_unsigned()` branches at
  `src/common/protocol.hpp:295` and `src/common/protocol.hpp:367` are never taken; the wrapping
  conversion happens in `get<int64_t>()` instead. `AmountAcceptance` shows the bounds hold anyway.
* Timing samples are trimmed after they have exceeded 1000, so 1001 are kept
  (`src/server/metrics_collector.cpp:59-62`).
* `max_connections` is narrowed to `int` before its range check
  (`src/server/runtime_config_manager.cpp:98`); `ConnectionsSetting` gives exactly the values
  for which that goes unnoticed.
* The comment at `src/server/websocket_session.cpp:572-575` says a failed allocation closes the
  session into a clean state. Before the close is requested, another thread's message can
  still start a writer, and the client then receives what came after the lost message;
  `LossDecidesPrefix` says exactly when.

* The comment at `src/server/websocket_server.cpp:219` says no session is created while the server is
  shutting down. A stop that comes between that guard and the creation is not noticed;
  `LateSessionExactly` says when, and `LateSession` shows a session that `stop_all` misses.

## Model

| member | source | states |
|---|---|---|
| `WritePipeline.WrittenInOrder` | src/server/websocket_session.cpp:503-671 | in every run, what was written is what was accepted, in order and nothing twice; a prefix of it unless an allocation failed; and without write errors the rest is in flight or queued |
| `WritePipeline.OneWriteAtATime` | src/server/websocket_session.cpp:503-600 | two writes never overlap, `writing_` is set exactly while a writer exists, the queue never exceeds 100, and a posted `do_write` always finds a message |
| `WritePipeline.GracefulDrain` | src/server/websocket_session.cpp:638-654 | a run without faults or disconnection by the peer has written every message it ever accepted by the time the session is closed |
| `WritePipeline.CloseNeverInterruptsWrite` | src/server/websocket_session.cpp:742-749 | `do_close` never runs while a write is posted or in flight, whatever fails |
| `WritePipeline.SendAcceptedExactly` | src/server/websocket_session.cpp:503-541 | a message is accepted if and only if the session is not closed, no close is requested and fewer than 100 messages wait; a refused one changes nothing |
| `WritePipeline.SendsFillTheQueue` | src/server/websocket_session.cpp:509-519 | of any number of messages sent in a row to a session in business, exactly as many as there is room for are accepted, in order |
| `LostMessages.LossDecidesPrefix` | src/server/websocket_session.cpp:568-594 | after a failed allocation, written stays a prefix of accepted in all continuations if and only if a close had been requested (or the session was closed) at that point |
| `LostMessages.LossShows` | src/server/websocket_session.cpp:571-594 | for any open session that keeps the pipeline invariant and is about to lose a message, a continuation in which the client sees the gap |
| `LostMessages.LostMessageBreaksPrefix` | src/server/websocket_session.cpp:571-594 | a concrete run after which written is not a prefix of accepted |
| `SessionChains.OneReadOneWait` | src/server/websocket_session.cpp:66-130 | reader and timer chains neither fork nor die: at most one read and one wait are ever outstanding, between handlers a session in business has exactly one accept or read and exactly one deadline wait, and a closed session waits for no deadline |
| `SessionChains.AtMostOneLateMessage` | src/server/websocket_session.cpp:237-245 | once a close is requested at most one further message is handled, ever |
| `SessionClosing.NoLostClose` | src/server/websocket_session.cpp:729-750 | a requested close of a session that is not closed is always pending with somebody |
| `SessionClosing.ClosedIsFinal` | src/server/websocket_session.cpp:349 | `closed` is absorbing; the handshake's store of `authenticated` never overwrites it |
| `SessionClosing.StepSpendsBudget` | src/server/websocket_session.cpp:602-659 | after a close request every step of work strictly lowers a measure that sends and idle steps do not raise |
| `SessionClosing.CloseIsBounded` | src/server/websocket_session.cpp:729-760 | from the close request on, a session still not closed has done a bounded amount of work, in any schedule |
| `SessionClosing.NeverStuck` | src/server/websocket_session.cpp:834-846 | until it is closed, such a session always has an enabled task |
| `SessionClosing.CloseCompletes` | src/server/websocket_session.cpp:834-858 | carrying out the tasks closes the session |
| `SessionLife.AuthenticatedAfterHandshake` | src/server/websocket_session.cpp:287-349 | an authenticated session took up a proper handshake first and was then entered in the registry under its id |
| `SessionLife.StepMovesForward` | src/server/websocket_session.cpp:333-349 | phases only advance, an id never changes once given, and sequence number and stack change only while authenticated |
| `SessionAccount.GapIsDifference` | src/server/websocket_session.cpp:422-425 | the wrapping subtraction is the true difference for every last number from -1 on |
| `SessionAccount.NoReplayBoundedSkew` | src/server/websocket_session.cpp:407-437 | accepted sequence numbers strictly increase, and after n of them the last lies between n - 1 and n * gap - 1 |
| `SessionAccount.NewStackIsCapped` | src/server/websocket_session.cpp:467 | the int64 addition of a valid amount never overflows |
| `SessionAccount.StackConserved` | src/server/websocket_session.cpp:464-480 | the stack is the capped sum of the amounts whose response was queued, and the responses announce exactly its levels, never falling |
| `SessionMessages.HistoryIsRun` | src/server/websocket_session.cpp:186-246 | a history of events, taken one by one, is a run of the machine as a whole; that each event is the right step is VerdictFits and WebsocketSession.OnRead |
| `SessionMessages.VerdictFits` | src/server/websocket_session.cpp:209-213 | the verdict on a delivered message is always one the session's state allows, so no delivered message is dropped by the machine |
| `SessionMessages.AuthenticatedByHandshakeOnly` | src/server/websocket_session.cpp:287-349 | whatever a client sends, authentication takes a message delivered to the session with the server's version in payload and envelope, and an entry in the registry after it |
| `SessionMessages.SequenceMovesByAction` | src/server/websocket_session.cpp:394-437 | the sequence number moves only by an ACTION with the session's own id, to that message's number, forward and within the gap |
| `SessionMessages.StackMovesByReload` | src/server/websocket_session.cpp:446-480 | only a RELOAD_REQUEST with the session's own id prepares a credit, of its own amount, and only a credit moves the stack |
| `SessionOutcomes.DeadlineEnds` | src/server/websocket_session.cpp:706-725 | the handler of an expired deadline, run to its end, has requested a close, and has queued exactly one error, SESSION_CLOSED with "Handshake timeout" or "Idle timeout", if the session takes messages, and nothing otherwise |
| `SessionOutcomes.DeadlineClosesAnyRun` | src/server/websocket_session.cpp:706-725 | in every run, however other threads interrupt that handler, a close is requested from its end on |
| `SessionOutcomes.TrafficEnds` | src/server/websocket_session.cpp:193-207 | a message over the rate limit or in a burst is answered with its error if there is room, and a close is requested |
| `SessionOutcomes.UntypedIsRefused` | src/server/websocket_session.cpp:358-366 | an authenticated session answers text without a `message_type` of at most 32 characters with MALFORMED_MESSAGE and closes |
| `SessionOutcomes.UnknownTypeIsRefused` | src/server/websocket_session.cpp:377-391 | a type other than the three it knows is named back to the client in a PROTOCOL_ERROR, and the session closes |
| `SessionOutcomes.MalformedActionIsRefused` | src/server/websocket_session.cpp:394-401 | an ACTION whose JSON breaks a rule is answered with MALFORMED_MESSAGE and a close |
| `SessionOutcomes.ForeignActionIsRefused` | src/server/websocket_session.cpp:403-405 | an ACTION for another session is answered with "Session ID mismatch" and a close |
| `SessionOutcomes.ActionAcceptedExactly` | src/server/websocket_session.cpp:407-437 | an ACTION of the session's own, in raw JSON, is accepted if and only if the whole value n of its sequence number satisfies last < n <= last + gap; otherwise it is refused as a replay (n <= last) or for its gap, and the account is unchanged. A number equal to the last one is refused though `lastSeq` equals it before and after, hence the `n != last` in the equivalence |
| `SessionOutcomes.NextIsAccepted` | src/server/websocket_session.cpp:237-246 | the number accepted is stored, nothing is queued, and the finished handler differs from the session before only in its account and in a deadline that is cancelled to be waited for anew |
| `SessionOutcomes.CountingByOnesIsAccepted` | src/server/websocket_session.cpp:407-437 | end to end from what a client serialises: one that keeps to the traffic limits and counts its actions by ones has every valid one accepted, under any positive gap |
| `SessionOutcomes.AccountsAreSound` | src/server/websocket_session.cpp:407-480 | in every run the last number is at least -1 and the stack between 0 and 10^15, which the outcomes assume |
| `SessionOutcomes.MalformedReloadIsRefused` | src/server/websocket_session.cpp:446-453 | a RELOAD_REQUEST whose JSON breaks a rule is answered with MALFORMED_MESSAGE and a close |
| `SessionOutcomes.ForeignReloadIsRefused` | src/server/websocket_session.cpp:454-456 | one for another session is answered with "Session ID mismatch" and a close |
| `SessionOutcomes.ReloadGrantedExactly` | src/server/websocket_session.cpp:464-480 | a RELOAD_REQUEST of the session's own, in raw JSON, is granted if and only if the session takes messages: the stack becomes min(stack + cents, 10^15), exactly one response announces it and the deadline is extended; otherwise nothing is kept or sent and a close is requested |
| `SessionOutcomes.MalformedDisconnectIsRefused` | src/server/websocket_session.cpp:483-490 | a DISCONNECT whose JSON breaks a rule is answered with MALFORMED_MESSAGE and a close |
| `SessionOutcomes.ForeignDisconnectIsRefused` | src/server/websocket_session.cpp:491-493 | one for another session is answered with "Session ID mismatch" and a close |
| `SessionOutcomes.DisconnectEnds` | src/server/websocket_session.cpp:483-501 | a DISCONNECT of the session's own, in raw JSON, ends it: a close is requested, and nothing is queued |
| `SessionOutcomes.MalformedHandshakeIsRefused` | src/server/websocket_session.cpp:287-295 | anything but an acceptable HANDSHAKE is answered with MALFORMED_HANDSHAKE and a close |
| `SessionOutcomes.OtherVersionIsRefused` | src/server/websocket_session.cpp:299-306 | an acceptable one of another version is answered with INCOMPATIBLE_VERSION, "Expected v1.0", and a close |
| `SessionOutcomes.HandshakeAuthenticatesExactly` | src/server/websocket_session.cpp:317-349 | an acceptable HANDSHAKE of version v1.0 authenticates the session if and only if the registry admits it and the response can be queued: then it has its id, and exactly one response with that id, seat -1 and stack 0 is queued; without an id it is refused, without room it closes unauthenticated |
| `SessionOutcomes.ReadsOn` | src/server/websocket_session.cpp:237-246 | after a message a session in business cancels the running deadline and reads again, and any other does neither |
| `SessionTraffic.RateRefusal` | src/server/websocket_session.cpp:248-285 | in any history with ordered arrivals a message is refused for its rate if and only if the last M admitted ones are all still in the window |
| `SessionTraffic.InBusinessKeepsRate` | src/server/websocket_session.cpp:254-282 | a session nobody has begun to close has received at most M messages in any closed interval of the window's length |
| `SessionTraffic.InBusinessKeepsPace` | src/server/websocket_session.cpp:197-207 | past its hundredth message such a session has received at most one message a second on average |
| `ConfiguredSession.SkewUnderAnyConfiguration` | src/server/runtime_config_manager.cpp:173-178 | whatever is loaded while a session runs, n accepted actions leave the sequence number at most at 100000 n - 1 |
| `RateLimiter.DequeIsWindowOfHistory` | src/server/websocket_session.cpp:254-263 | compacting in place loses nothing: the deque is the record of all admitted arrivals cut to the current window |
| `RateLimiter.RefusedExactlyWhenWindowFull` | src/server/websocket_session.cpp:259-263 | refusal if and only if the M-th admitted message before it lies within the window |
| `RateLimiter.RateIsBounded` | src/server/websocket_session.cpp:248-263 | no closed interval of window length, wherever it starts, holds more than M admitted messages |
| `RateLimiter.BurstBound` | src/server/websocket_session.cpp:901-930 | n > 100 messages that all passed the burst check span at least n - 100 seconds after the hundredth |
| `RateLimiter.BurstExactly` | src/server/websocket_session.cpp:901-925 | a message is a burst if and only if a hundred came before it and it is less than 10^9 nanoseconds away from the last |
| `RateLimiter.SecondsAreNanos` | src/server/websocket_session.cpp:254 | windows in seconds and clock readings in nanoseconds fit together: casting back gives the seconds, and one more second is 10^9 more |
| `RateLimiter.SlidingWindow.Prune` | src/server/websocket_session.cpp:255-257 | the remove-and-erase loop keeps exactly the fresh timestamps, in order |
| `RateLimiter.SlidingWindow.Check` | src/server/websocket_session.cpp:252-264 | the critical section of the rate check |
| `Registry.RegisterAddsOneOrNothing` | src/server/connection_manager.cpp:38-96 | whatever ids the generator returns, a registration no other thread interferes with adds one fresh key for the session or leaves the map unchanged |
| `Registry.RegisterFailsExactly` | src/server/connection_manager.cpp:58-96 | with usable ids and no interference it fails if and only if the map is full or all of them are taken |
| `ServerSystem.NoRetryNeeded` | src/server/connection_manager.cpp:57-95 | in every run with fewer than 2^32 ids drawn, whatever other threads do between a draw and its entry, a drawn id is in nobody's entry, so it is refused only for lack of room and no second attempt is made |
| `Registry.CounterWrapRepeatsIds` | src/server/connection_manager.cpp:173 | why the bound is needed: the shift drops the counter's high half |
| `ServerSystem.RegistryAgrees` | src/server/connection_manager.cpp:31-125 | in every run of the whole server, at most 1000 entries exist, each belongs to a session that holds its id and is not closed, no session has two, and one still registering has none |
| `ServerSystem.MissingOnlyIfTaken` | src/server/websocket_session.cpp:317-336 | conversely, a session with an id that is not closed is in the map unless a `stop_all` took it, and then its close is requested or it is still on that list |
| `ServerSystem.TakenBySwaps` | src/server/connection_manager.cpp:195-202 | taken means exactly: in the map at some moment a `stop_all` swapped it out |
| `ServerSystem.StopReachesEveryEntry` | src/server/connection_manager.cpp:195-208 | every session registered when `stop_all` takes the map is asked to close or still on its list, whatever runs beside it |
| `ServerSystem.SessionsAreRuns` | src/server/websocket_session.cpp:317-336 | every session of the server goes through a run of the session machine, so its theorems hold here too |
| `SessionIds.MixIsXor` | src/server/connection_manager.cpp:173 | the mixed number is the bitwise exclusive or of the shifted counter and the random number |
| `SessionIds.GenerateSessionId` | src/server/connection_manager.cpp:172-181 | the loop over the buffer writes the prefix and the sixteen digits |
| `SessionIds.ParseHexInvertsHex` | src/server/connection_manager.cpp:175-179 | decoding inverts encoding for every number that fits the digits |
| `SessionIds.IdIsValidAndDecodes` | src/common/protocol.cpp:20-28 | every generated id passes the session-id format check and decodes to its counter |
| `SessionIds.IdsEqualExactly` | src/server/connection_manager.cpp:157-181 | two ids are equal if and only if the counters modulo 2^32 and the random numbers are |
| `SessionObjects.ConnectionManager.RegisterSession` | src/server/connection_manager.cpp:31-97 | the retry loop computes the registration the lemmas speak of |
| `SessionObjects.ConnectionManager.Attempt` | src/server/connection_manager.cpp:39-93 | one turn of the loop: what is entered, returned and tried again |
| `SessionObjects.ConnectionManager.GetSession` | src/server/connection_manager.cpp:127-135 | finds the session entered under an id, if there is one |
| `SessionObjects.ConnectionManager.Emplace` | src/server/connection_manager.cpp:56-72 | the critical section: full before taken before added, and the map changes only in the last case |
| `SessionObjects.ConnectionManager.UnregisterSession` | src/server/connection_manager.cpp:99-112 | removes the entry, if any, and nothing else |
| `SessionObjects.ConnectionManager.StopAll` | src/server/connection_manager.cpp:195-208 | empties the map and asks every session in it to close, once for every entry it had, changing nothing else |
| `SessionObjects.WebsocketSession.constructor` | src/server/websocket_session.hpp:87-120 | a new session is in the machine's initial state |
| `SessionObjects.WebsocketSession.QueueMessage` | src/server/websocket_session.cpp:503-541 | the one way into the queue: true if and only if not closed, no close requested and fewer than 100 waiting; then the message is appended and a writer posted unless there is one, otherwise nothing changes |
| `SessionObjects.WebsocketSession.RunPostedWrite` | src/server/websocket_session.cpp:535-538 | a posted writer runs as the machine's handler, through to a close it leads to |
| `SessionObjects.WebsocketSession.DoWrite` | src/server/websocket_session.cpp:547-600 | refines the machine's write handler, with and without memory for the message |
| `SessionObjects.WebsocketSession.OnWrite` | src/server/websocket_session.cpp:602-659 | refines the completion of a write, failed or not, through to a close it leads to |
| `SessionObjects.WebsocketSession.DoClose` | src/server/websocket_session.cpp:834-858 | refines the two guards, the timer and the registry removal |
| `SessionObjects.WebsocketSession.Close` | src/server/websocket_session.cpp:729-750 | refines `close()` called on the strand, callback included; a close is requested afterwards in any case |
| `SessionObjects.WebsocketSession.CloseFromOutside` | src/server/websocket_session.cpp:729-739 | refines both halves of `close()` on another thread |
| `SessionObjects.WebsocketSession.RunCloseCallback` | src/server/websocket_session.cpp:739-750 | refines the queued callback of such a close |
| `SessionObjects.WebsocketSession.OnRead` | src/server/websocket_session.cpp:132-246 | handling a message leaves session, registry, rate deque and activity record exactly as the connection's history says |
| `SessionObjects.WebsocketSession.OnReadFailure` | src/server/websocket_session.cpp:140-184 | refines the end of a connection by the peer or by an error |
| `SessionObjects.WebsocketSession.HandleHandshakeMessage` | src/server/websocket_session.cpp:287-349 | refines the handshake: parse, version, registration, response, in that order; and, in raw JSON, is refused with the right error, or authenticated and answered under the id the registration returned |
| `SessionObjects.WebsocketSession.HandleAction` | src/server/websocket_session.cpp:394-437 | refines the identity, replay and gap checks and the store; and, in raw JSON, stores a number that follows the last within the gap and refuses every other message with its error |
| `SessionObjects.WebsocketSession.HandleReload` | src/server/websocket_session.cpp:446-481 | refines the reload; the stack is committed and announced if the response can be queued, given up if not, and every other message refused with its error |
| `SessionObjects.WebsocketSession.HandleDisconnect` | src/server/websocket_session.cpp:483-501 | refines the disconnect request; one of the session's own requests a close and queues nothing, and every other message is refused with its error |
| `SessionObjects.WebsocketSession.HandleAuthenticatedMessage` | src/server/websocket_session.cpp:358-392 | refines the routing by message type |
| `SessionObjects.WebsocketSession.CheckRateLimitOrClose` | src/server/websocket_session.cpp:248-285 | the rate check, and the error and close that follow a refusal |
| `SessionObjects.WebsocketSession.CheckSuspiciousActivity` | src/server/websocket_session.cpp:901-932 | the burst check and the record it leaves; true if and only if a hundred messages came before and the last one is less than a second away |
| `SessionObjects.WebsocketSession.ValidateSessionId` | src/server/websocket_session.cpp:771-798 | accepts the session's own id only; any other is answered with its error and a close |
| `SessionObjects.WebsocketSession.OnAccept` | src/server/websocket_session.cpp:71-111 | refines the WebSocket accept, failed or not |
| `SessionObjects.WebsocketSession.OnDeadline` | src/server/websocket_session.cpp:706-725 | refines the expiry of the deadline; unless closed, the session is told which timeout it was if there is room, and a close is requested |
| `SessionObjects.WebsocketSession.OnDeadlineError` | src/server/websocket_session.cpp:676-704 | refines a cancelled or failed wait: the chain goes on exactly while the session does business |
| `ProtocolProofs.AmountAcceptance` | src/common/protocol.hpp:292-312 | an amount is accepted if and only if it is an integer from 1 to 10^15 or a fraction of dollars that rounds to such a number of cents, and is then those cents, the wrapping conversion notwithstanding |
| `ProtocolProofs.ActionAcceptance` | src/common/protocol.cpp:275-347 | an ACTION envelope parses if and only if its raw JSON meets every rule, amounts exactly for RAISE and ALL_IN, and then to the id, type, cents and whole number its JSON holds |
| `ProtocolProofs.ReloadAcceptance` | src/common/protocol.cpp:351-376 | the same for RELOAD_REQUEST, with its id and cents |
| `ProtocolProofs.DisconnectAcceptance` | src/common/protocol.cpp:380-410 | the same for DISCONNECT, with its id |
| `ProtocolProofs.HandshakeAcceptance` | src/common/protocol.cpp:216-261 | the same for HANDSHAKE, of any version that payload and envelope agree on |
| `ProtocolProofs.SessionIdFormat` | src/common/protocol.cpp:20-28 | the format check accepts exactly "sess_" and 1 to 123 characters of the alphabet of lower-case letters, digits and underscore |
| `ProtocolProofs.SequenceNumberAcceptance` | src/common/protocol.hpp:291 | a sequence number is accepted if and only if its whole part is from 0 to 2^63 - 1, and is then that |
| `ProtocolProofs.MessageTypeExactly` | src/common/protocol.cpp:126-138 | the routing field is found if and only if it is text of at most 32 characters |
| `ProtocolProofs.ActionUndefined` | src/common/protocol.hpp:288-313 | exactly the inputs for which C++ leaves the conversion undefined |
| `ProtocolProofs.ActionNormalisation` | src/common/protocol.cpp:150-180 | an accepted action, sent again in an envelope and parsed, directly or through text, is the same action, also if its amount came as dollars |
| `ProtocolProofs.ReloadNormalisation` | src/common/protocol.hpp:358-382 | the same for a reload request |
| `ProtocolProofs.DisconnectNormalisation` | src/common/protocol.hpp:393-403 | the same for a disconnect |
| `ProtocolProofs.HandshakeRoundTrip` | src/common/protocol.hpp:257-267 | reading inverts writing, directly and through text |
| `ProtocolProofs.HandshakeResponseRoundTrip` | src/common/protocol.hpp:269-279 | reading inverts writing, directly and through text |
| `ProtocolProofs.ActionRoundTrip` | src/common/protocol.hpp:281-313 | reading inverts writing, directly and through text |
| `ProtocolProofs.PlayerStacksRoundTrip` | src/common/protocol.hpp:248-255 | reading inverts writing for whole lists of stacks |
| `ProtocolProofs.StateUpdateRoundTrip` | src/common/protocol.hpp:315-343 | reading inverts writing with all optional fields and nested lists |
| `ProtocolProofs.ErrorRoundTrip` | src/common/protocol.hpp:345-356 | reading inverts writing, directly and through text |
| `ProtocolProofs.ReloadRequestRoundTrip` | src/common/protocol.hpp:358-382 | reading inverts writing, directly and through text |
| `ProtocolProofs.ReloadResponseRoundTrip` | src/common/protocol.hpp:384-391 | reading inverts writing, directly and through text |
| `ProtocolProofs.DisconnectRoundTrip` | src/common/protocol.hpp:393-403 | reading inverts writing, directly and through text |
| `ProtocolProofs.EnvelopeRoundTrip` | src/common/protocol.hpp:405-414 | reading inverts writing for any payload |
| `ProtocolProofs.ErrorOnTheWire` | src/common/protocol.cpp:416-418 | what a client reads, after text: type ERROR, version v1.0, `error_code`, `message`, and `session_id` exactly if there is one |
| `ProtocolProofs.HandshakeResponseOnTheWire` | src/common/protocol.cpp:420-422 | type HANDSHAKE_RESPONSE with `session_id`, `seat_number` and `starting_stack` as whole numbers, negative ones included |
| `ProtocolProofs.ReloadResponseOnTheWire` | src/common/protocol.cpp:424-426 | type RELOAD_RESPONSE with `granted` and `new_stack` |
| `ProtocolProofs.StateUpdateOnTheWire` | src/common/protocol.cpp:412-414 | type STATE_UPDATE with all its keys, the lists entry by entry, and optional ones present exactly when the message has them |
| `Protocol.ValidateSessionIdFormat` | src/common/protocol.cpp:20-28 | the character loop decides the format |
| `Protocol.ValidateHandshake` | src/common/protocol.cpp:228-261 | the checks and the character loop accept exactly valid handshakes |
| `Protocol.ValidateDisconnect` | src/common/protocol.cpp:380-402 | the checks and the character loop accept exactly valid disconnects |
| `Metrics.PercentilesOrdered` | src/server/metrics_collector.cpp:14-28 | percentiles of sorted samples are ordered like their ranks and stay between the extreme samples |
| `Metrics.PercentileEnds` | src/server/metrics_collector.cpp:17-23 | percentiles 0 and 100 are the extreme samples |
| `Metrics.PercentileExactly` | src/server/metrics_collector.cpp:14-28 | for every rank p of n samples, with x = p(n - 1), the percentile is sample x / 100 if x is a multiple of 100, and otherwise the next two samples weighted in hundredths by x mod 100, over integers |
| `Metrics.ExtremesAreRecorded` | src/server/metrics_collector.cpp:55-57 | minimum and maximum are recorded durations, except that a maximum below zero shows as zero |
| `Metrics.IndexInRange` | src/server/metrics_collector.cpp:17-19 | both indices the interpolation reads exist |
| `Metrics.ExportedPercentiles` | src/server/metrics_collector.cpp:139-156 | after any recordings, min <= p50 <= p95 <= p99 <= max as exported |
| `Metrics.TimingData.Record` | src/server/metrics_collector.cpp:48-62 | count, sum and extremes follow the whole record, and the samples are its last 1001 |
| `RuntimeConfig.RuntimeConfigManager.LoadFromJson` | src/server/runtime_config_manager.cpp:79-221 | all or nothing: accepted if and only if the described write queue holds a window's messages, otherwise no change; and exactly which inputs C++ leaves undefined |
| `RuntimeConfig.DefaultsFillIn` | src/server/runtime_config_manager.cpp:83-94 | each of the twelve settings that is absent or of another type takes the default of the source, written out |
| `RuntimeConfig.LimitsAsked` | src/server/runtime_config_manager.cpp:113-179 | the five limits are the whole part of the number under their key if it is in the range of the source, and its default otherwise |
| `RuntimeConfig.TimesAsked` | src/server/runtime_config_manager.cpp:105-187 | the same for the four durations, and the two switches are what the file says, or on |
| `RuntimeConfig.ConnectionsAsked` | src/server/runtime_config_manager.cpp:97-103 | the same for `max_connections`, of whose whole part only the lower 32 bits count |
| `RuntimeConfig.EmptyFileIsDefault` | src/server/runtime_config_manager.cpp:82-94 | a file that says nothing describes the configuration the server starts with |
| `RuntimeConfig.RefusedExactly` | src/server/runtime_config_manager.cpp:190-193 | in terms of the file, a load changes the configuration if and only if the queue it asks for holds the messages it asks for |
| `RuntimeConfig.RuntimeConfigManager.ExportToJson` | src/server/runtime_config_manager.cpp:223-245 | writes every setting under the key it is read from |
| `RuntimeConfig.ReachableInRange` | src/server/runtime_config_manager.cpp:96-193 | after any loads every setting is in range and the queue holds a window's messages |
| `RuntimeConfig.NumberSetting` | src/server/runtime_config_manager.cpp:105-179 | a numeric setting is its whole part if in range and the default otherwise, wrapping conversions or not |
| `RuntimeConfig.ConnectionsSetting` | src/server/runtime_config_manager.cpp:97-103 | the same holds of `max_connections`, integer or fraction, if and only if the value modulo 2^32 does not fall into the range by accident |
| `RuntimeConfig.HugeConnectionsBecomeOne` | src/server/runtime_config_manager.cpp:98 | an integer and a fraction for which it does not hold |
| `RuntimeConfig.ExportRestores` | src/server/runtime_config_manager.cpp:223-254 | loading the export of any reachable configuration, from memory or text, restores it |
| `RuntimeConfig.LoadForgets` | src/server/runtime_config_manager.cpp:195-210 | an accepted load does not depend on the configuration before it, and a refused one leaves no trace |
| `AcceptChain.OneAcceptAtATime` | src/server/websocket_server.cpp:132-208 | at most one accept or live backoff wait exists, and between handlers exactly one before a stop unless an accept failed for good |
| `AcceptChain.FatalEndsChain` | src/server/websocket_server.cpp:153-173 | after an accept that was aborted or failed for good, no accept and no wait is ever outstanding and no session is created, in every run |
| `AcceptChain.BackoffIsExponential` | src/server/websocket_server.cpp:176-211 | after k consecutive failures the next waits min(2^k, 30) seconds, and a success starts over |
| `AcceptChain.NothingCreatedAfterStop` | src/server/websocket_server.cpp:219-243 | once a stop has begun at most one more session is created, and none unless the running handler was past its guard; an accept that completes later creates none |
| `AcceptChain.LateSessionExactly` | src/server/websocket_server.cpp:220-231 | after a stop has begun another session can be created if and only if the running handler is past its guard |
| `AcceptChain.LateSession` | src/server/websocket_server.cpp:220-231 | a run in which the whole stop falls between guard and creation, and the session is created after `stop_all` |
| `AcceptChain.StagesAreStop` | src/server/websocket_server.cpp:87-130 | the five interruptible stages of a stop, uninterrupted, are the stop |
| `AcceptChain.FinishSuccess` | src/server/websocket_server.cpp:208-244 | an accepted connection nobody interferes with gets its session and the next accept starts, unless a stop has begun |
| `AcceptChain.FinishFailure` | src/server/websocket_server.cpp:176-205 | a failure replaces the timer, waits the current delay and stores the next one |
| `AcceptChain.FinishRetry` | src/server/websocket_server.cpp:187-200 | the end of a wait starts the next accept if and only if the acceptor is open and the timer is still the current one |
| `AcceptChain.WebsocketServer.HandleAccept` | src/server/websocket_server.cpp:152-244 | refines the completion of an accept |
| `AcceptChain.WebsocketServer.HandleBackoff` | src/server/websocket_server.cpp:187-200 | refines the end of a backoff wait, of the current timer or a replaced one |
| `AcceptChain.WebsocketServer.Stop` | src/server/websocket_server.cpp:87-130 | refines the stop; a second one does nothing |

## Left out

- SessionOutcomes.ActionAcceptedExactly: like the other outcomes that speak of a finished handler, takes the handler to run without another thread in between; what holds with interruptions is DeadlineClosesAnyRun, SequenceMovesByAction, StackMovesByReload and the theorems about runs.
- LostMessages.LossDecidesPrefix: speaks of the first lost message of a run; after it, only that written is a subsequence of accepted is proved (WrittenInOrder).
- SessionClosing.CloseIsBounded: charges twenty steps for each further `close()` call from another thread, since each adds a callback.
- ServerSystem.MissingOnlyIfTaken: assumes, like NoRetryNeeded, that at most 2^32 ids were drawn; CounterWrapRepeatsIds shows why.
- Registry.RegisterAddsOneOrNothing: speaks, like RegisterFailsExactly and the methods of SessionObjects, of a call without interference; with it, see ServerSystem.
- SessionObjects.ConnectionManager.StopAll: runs without interference; what other threads do between the swap and the closes is in ServerSystem.
- RuntimeConfig.RuntimeConfigManager.LoadFromJson: promises nothing of the configuration after a conversion that C++ leaves undefined.
- AcceptChain.NothingCreatedAfterStop: assumes that the chain's own handlers do not overlap, as they could if several threads ran the `io_context`.
- SessionTraffic.InBusinessKeepsRate: takes the window and the limit to be the same for all messages, and arrival times to be ordered, as a steady clock's are.
- Asio and Beast themselves: framing, sockets, buffers, the order in which ready handlers are run, and what `async_close` or the socket close do after `do_close` has left the registry.
- The text of JSON: parsing, `dump()`, UTF-8, duplicate keys. `Reparse` states what a trip through text changes in a value.
- Floating point rounding: fractions are exact reals; cents of exactly 2^63 pass the source's guard and are `Undefined` here.
- Allocation failures other than the one in `do_write`, and the exception handlers that answer them.
- Destruction of sessions and of the manager, and the branches taken when a weak pointer has expired: a registered session is held by the registry.
- A null session given to `register_session`: it only ever passes itself.
- The counter-only fallback for ids, and how random numbers are seeded.
- `int64` overflow of the message counter and of the total of timings.
- Concurrent configuration getters, file reading, reload throttling and the deprecated `ws_read_timeout` key, which sets nothing.
- Counters, gauges, events and errors of the metrics, the logger, sanitising of log output, signal handling, the client stub and the single-line checks of `protocol_validation.cpp`: they would add only easy members.
