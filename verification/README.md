# A verified model of nsq-async-rs

nsq-async-rs is an asynchronous client for the NSQ message queue. This project models the three parts of it
whose correctness depends on how concurrent steps interleave or on every byte of a format, and proves what
they promise:

* **the connection pool** (`src/pool.rs`): `get`, `put`, `clean_idle_conns` and `release`, called by any number
  of clients at once over four separately locked fields;
* **the consumer** (`src/consumer.rs`, with the message of `src/protocol.rs`): reader loops, spawned tasks, the
  RDY credit they share, answers, the registry of connections, reconnecting and stopping;
* **the wire format** (`src/protocol.rs`, `src/connection.rs`): commands and a parser for them written after the
  sections "Commands" and "Data Format" of the NSQ TCP Protocol Spec, frames and their three decoders, the
  handshake, and concurrent writers on one connection.

## How it is organised

Concurrent behaviour is a step system (`Transitions.dfy`): a partial function from a state and a move to the
next state, where the move carries everything the code leaves open (the scheduler, the clock, foreign calls,
failures). A theorem about a reachable state is then a theorem about every interleaving. `Tally.dfy` counts over
the actors of a system.

| files | contents |
|---|---|
| `PoolMachine`, `PoolEffects`, `PoolInvariants`, `PoolTheorems` | the pool with one step per stretch of code between two awaits; its invariants; conservation, ownership, cap, order, lifetime |
| `PoolMoves`, `PoolRuns` | single steps, and the stretches of runs from which counterexamples are built |
| `PoolDeadlock`, `PoolDeadlockRuns`, `PoolProgress` | what a deadlock is, exactly which pools can reach one, and that in the others every run of the calls in progress ends |
| `PoolStranding`, `PoolStrandingRuns`, `PoolExhaustion`, `PoolExhaustionRuns` | exactly which pools can leave a waiter waiting, beside a connection or with none left |
| `PoolRelease`, `PoolCap` | exactly which pools can count below zero, and which can have more connections than the cap |
| `PoolOperations`, `Pool`, `PoolWaiting` | the pool as a class whose methods are executions of the step system; waiters when calls do not overlap |
| `Numbers`, `Bytes`, `Utf8`, `Commands`, `CommandParser`, `Frames` | the formats in both directions |
| `Connection`, `Writers` | one connection as a class; many writers on it |
| `Delivery`, `DeliveryAnswers`, `DeliveryCredit`, `DeliveryAddresses`, `DeliveryAccounting` | tasks, readers and message clones as one step system; answers; permits and credit; accounting |
| `Answers`, `ReaderLoop`, `ReaderDelivery`, `Consumer` | a message and its task, the reader loop amid all others, and the registry, as classes; from the frames of the server to tasks |
| `Registry`, `Errors`, `Reconnect` | the locked registry under concurrent callers; which errors are retried; back-off and stopping |

The classes and the step systems are tied together: `Pool` carries the state of its step system as a ghost field
and every method proves that it drove that state along a run; `Handler.Run` proves the same of a spawned task and
`HandleConnection` of a reader loop, turn by turn, with the moves of all others between its own.

## What the code does not promise

The properties below fail for some inputs. Each is stated with the exact condition under which it holds, for all
configurations, and the failing runs are constructed.

* **Deadlock** (`DeadlockFreeIffSafe`). `get` locks count and then reqs, `put` locks reqs, idle and count, eviction
  and clean-up lock idle and then count. With `get` and `put` alone a pool is free of deadlock exactly if
  max(`initial_cap`, `max_cap`) <= `max_idle` and, should `get` be able to evict, that maximum is at most 1; with
  `clean_idle_conns` besides, exactly if the maximum is 0; with `release`, never. In the deadlock-free pools
  every run of the calls in progress comes to their ends, whatever the schedule (`EveryRunEnds`).
* **Stranded waiters** (`StrandedIff`). In an open pool with connections a waiter can be left beside an idle
  connection or under the cap exactly if `max_idle` >= 1, or `max_cap` >= 1 and there is a lifetime limit or waiters
  may leave: a `get` finds the deque empty, the connections come back, and only then it parks (`WaitsBesideAll`); or a
  `put` closes its connection while somebody waits, with the guard of `PutStrands` (`StrandsUnderCap`). In a closed
  pool somebody can be left parked exactly if `release` is called (`ForgottenIff`).
* **Pools used up** (`ExhaustedIff`). A connection whose close fails while the deque is full, or that was handed to a
  waiter who then left, is lost and still counted, and so are those a clean-up removed before a close failed. So a pool at rest can come to have a waiter, no connection, and a
  counter at the cap: no `get` will make a connection again. Exactly these pools can: those without connections, those
  with `max_idle` = 0, those whose waiters may leave, and of those whose `get` can evict the ones with `max_cap` = 0,
  with `max_idle` + `max_cap` <= `initial_cap`, or with `max_cap` < `initial_cap`, an idle limit and clean-ups.
* **The cap behind `release`** (`ExceedIff`). There can be more live connections than max(`initial_cap`, `max_cap`)
  exactly if `release` is called and `max_cap` >= 1: the counter is reset while connections are with callers, and a `get`
  past its closed check makes one more.
* **The counter after `release`** (`UnderflowIff`). It can go below zero exactly if `release` is called, there are
  connections, and waiters may leave, or `get` can evict, or the deque has not room for all connections.
* **Answers** (`AtMostOnceIff`, `ExactlyOnceIff`). With automatic answers a clone that answers after its handler
  returned can answer a second time; a clone whose call is dropped between flag and send leaves nobody to answer.
* **Counted as** (`CountedRightIff`, `AnswerMatchesOutcome`, `RequeuedCountedFinished`). The counters follow the handler's
  verdict, not the answer. A handler that requeues its message and returns Ok, as in the example at
  `src/consumer.rs:88-94`, has it counted as finished, in every configuration. Without late and cancelled clones the
  count agrees with the command exactly if the handler made no answer of its own or the one that goes with its verdict.
* **Handlers by address** (`BoundedByAddressIff`). The bounds on concurrent handlers and on messages received
  ahead of them hold for each connection; for each address they hold exactly if no address is disconnected and
  connected again.
* **Torn writes** (`ServerRecoversIff`, `TornRun`). The server reads back exactly the commands sent if and only if no
  write was cut short by a time-out and every command is well-formed.
* **Reconnecting after time-outs** (`RetriedIff`). `src/consumer.rs:448` tests for `Error::Timeout`, but reads and writes
  that time out yield `Error::TimedOut` (`src/error.rs:29-30`). A connection is made again after an I/O error of one of
  four kinds, or with "early eof" in the text of an I/O error or of an error frame of the server, and after no others.

The comment at `src/consumer.rs:53` says that `disable_auto_response` on a message switches its automatic answer
off. The flag is a plain field of each copy, and the consumer looks at its own: `DisableIsIgnored`,
`DisabledAndFinished`.

## Model

| member | source | states |
|---|---|---|
| `PoolTheorems.Conservation` | src/pool.rs:106-304 | over every interleaving until `release`: the counter is the idle connections, those held by callers, those in hand inside a running call, and the drift |
| `PoolTheorems.NoUnderflow` | src/pool.rs:132-302 | no step before `release` takes the counter below zero |
| `PoolTheorems.DriftOnlyGrows` | src/pool.rs:138-300 | the drift never falls, and grows in exactly three cases: a failed close in an overflowing `put`, a failed close in the clean-up loop after removals, a dropped receiver that was already served |
| `PoolTheorems.Capped` | src/pool.rs:209-295 | until `release`, counter, deque and live connections do not exceed the configured maxima |
| `PoolCap.ExceedIff` | src/pool.rs:209-328 | for every configuration and every set of calls: more connections can be alive than the cap allows, if and only if `release` is called and `max_cap` >= 1 |
| `PoolTheorems.ExactlyOnePlace` | src/pool.rs:159-304 | every connection the factory made is in exactly one place, once; nothing else is anywhere |
| `PoolTheorems.NeverShared` | src/pool.rs:159-285 | no two callers, and no caller and the deque, have the same connection |
| `PoolTheorems.ClosedOnce` | src/pool.rs:138-302 | the closer succeeds at most once on each connection |
| `PoolTheorems.ClosedStaysOut` | src/pool.rs:159-302 | a closed connection is never idle or handed out again, in any later state |
| `PoolTheorems.CleanDropsPrefix` | src/pool.rs:127-147 | a clean-up that finishes removed exactly a prefix of the deque, although time passes and indices run backwards, and lowers the counter by its length |
| `PoolTheorems.IdleOrdered` | src/pool.rs:159-294 | return times are nondecreasing from front to back |
| `PoolTheorems.HandedOutFresh` | src/pool.rs:176-231 | with a lifetime limit, whatever `get` returned was within it at its last check, from whichever source |
| `PoolTheorems.CreatedSurvives` | src/pool.rs:201-294 | the creation time is the same after any number of `get` and `put` |
| `PoolDeadlock.StuckIsCycle` | src/pool.rs:157-329 | whenever no unfinished call can go on, the holders of idle and reqs wait for each other |
| `PoolDeadlock.CycleIsForever` | src/pool.rs:157-329 | such a cycle is never resolved, whatever the other callers do |
| `PoolDeadlockRuns.DeadlockFreeIffSafe` | src/pool.rs:158-329 | for every configuration and every set of calls: no reachable state is a deadlock if and only if the configuration is safe |
| `PoolDeadlockRuns.UnsafeDeadlocks` | src/pool.rs:158-329 | every unsafe configuration has a run into a deadlock |
| `PoolDeadlock.SafeHasNoCycle` | src/pool.rs:158-302 | in a deadlock-free pool no locks are waited for in a cycle, in any reachable state |
| `PoolProgress.EveryRunEnds` | src/pool.rs:122-305 | from every reachable state of such a pool, every run of the calls in progress is at most as long as their remaining work, and can be continued exactly until each call has ended or is parked |
| `PoolProgress.EveryCallEnds` | src/pool.rs:122-305 | so from every reachable state they can all run to their ends, with no new call |
| `PoolRelease.UnderflowIff` | src/pool.rs:246-328 | for every configuration and every set of calls: the counter can go below zero if and only if `release` is called, there are connections, and one can be counted out on its way back |
| `PoolStranding.StrandedIff` | src/pool.rs:156-304 | for every configuration and every set of calls, over every interleaving: a waiter of an open pool can be left beside an idle connection or under the cap, if and only if the configuration allows it |
| `PoolStranding.ForgottenIff` | src/pool.rs:209-329 | a waiter can be left parked in a closed pool if and only if `release` is called |
| `PoolExhaustion.ExhaustedIff` | src/pool.rs:138-304 | for every configuration and every set of calls: an open pool can come to rest with a waiter, no connection and a counter at the cap, if and only if the configuration allows it |
| `PoolStrandingRuns.WaitsBesideAll` | src/pool.rs:158-294 | if the deque has room for all connections, they can all be in it, none closed or lost and nobody in a call, while somebody waits |
| `PoolStrandingRuns.StrandsUnderCap` | src/pool.rs:250-285 | a reachable state and a whole `put` that meets the guard of `PutStrands` there, for every configuration in which one can |
| `PoolOperations.GetStrandsNobody` | src/pool.rs:151-236 | a whole `get` leaves no waiter while the pool could serve one |
| `PoolOperations.PutStrands` | src/pool.rs:250-302 | a whole `put` leaves such a waiter exactly if, before it, somebody waits at a counter at the cap and the connection is too old or the newest waiter has gone |
| `PoolWaiting.NobodyWaitsInVain` | src/pool.rs:156-304 | over any run of whole operations, without lifetime limit, failed closes and cancellation: waiters imply an empty deque, a full counter and all connections with callers |
| `PoolWaiting.PutServesNewest` | src/pool.rs:268-285 | in these runs a `put` with waiters serves exactly the newest one, so the queue gets shorter by one |
| `PoolImplementation.Pool.New` | src/pool.rs:82-119 | a new pool is in an initial state of the step system |
| `PoolImplementation.Pool.Get` | src/pool.rs:151-236 | `get` returns the first connection that need not go, or makes one, or queues; what it passed over was expired or dead, went to the closer and is counted out; an execution of the step system |
| `PoolImplementation.Pool.Receive` | src/pool.rs:218-222 | a caller that waited gets the connection it was handed, within its lifetime, or the refusal of `release` |
| `PoolImplementation.Pool.Scan` | src/pool.rs:158-206 | the loop of `get` over the deque, with the reasons for what it drops and keeps |
| `PoolImplementation.Pool.GetBeyond` | src/pool.rs:209-235 | the rest of `get`: the cap decides between queueing and the factory |
| `PoolImplementation.Pool.Put` | src/pool.rs:239-305 | all seven outcomes of `put`, with their effect on deque, counter, waiters, callers and the connections closed; an execution of the step system |
| `PoolImplementation.Pool.CleanIdleConns` | src/pool.rs:122-148 | what a clean-up removes, closes and keeps, succeeding and failing; an execution of the step system |
| `PoolImplementation.Pool.Release` | src/pool.rs:308-330 | what `release` closes and leaves, succeeding and failing, and who is refused; an execution of the step system |
| `Bytes.BigEndianTruncates` | src/protocol.rs:55-88 | a length field holds the length modulo 256^k: the cast to u32 |
| `Bytes.U32RoundTrip` | src/protocol.rs:69-101 | decimal numerals of u32 values are read back |
| `Commands.TotalSize` | src/protocol.rs:79-82 | the MPUB total is the number of bytes that follow it |
| `Commands.ToBytes` | src/protocol.rs:49-126 | the buffer built piece by piece is the printed command line, its newline and its sized block |
| `CommandParser.RoundTripIffWellFormed` | src/protocol.rs:49-126 | a printed command is read back, whatever follows it, if and only if its names have no space or newline and its sizes fit 32 bits |
| `CommandParser.StreamRoundTripIffWellFormed` | src/protocol.rs:49-126 | the concatenation of any commands is read back as exactly these commands, if and only if all are well-formed |
| `CommandParser.UniqueDecoding` | src/protocol.rs:49-126 | two sequences of well-formed commands that print the same are the same, but for AUTH without and with an empty secret |
| `CommandParser.ParsedIsWellFormed` | src/protocol.rs:49-126 | the parser accepts well-formed commands only |
| `CommandParser.NothingShorter` | src/protocol.rs:49-126 | no shorter stream is read as the same commands |
| `Frames.FrameFields` | tests/consumer_integration_test.rs:21-37 | where size, type and payload of an encoded frame stand, and that the size counts type and payload |
| `Frames.MessageRoundTrip` | src/protocol.rs:484-503 | decoding inverts encoding, for every message with a 16-byte id |
| `Frames.MessageReencodes` | src/protocol.rs:484-503 | and encoding inverts decoding, for every payload of 26 bytes and more |
| `Frames.MessagePanics` | src/protocol.rs:484-503 | of its slices, one is out of range on exactly the payloads of 4 to 25 bytes, and the decoder succeeds on exactly the longer ones |
| `Frames.NextFrameRoundTrip` | src/connection.rs:172-201 | one read takes exactly one encoded frame, size + 4 bytes, off the stream |
| `Frames.FrameStreamRoundTrip` | src/connection.rs:172-201 | any sequence of encoded frames is read back by as many reads |
| `Frames.ReadIffEncoded` | src/connection.rs:172-201 | a read yields a frame if and only if the stream starts with the encoding of that frame |
| `Frames.SliceAgreesWithStream` | src/protocol.rs:419-440 | on all byte strings: the slice decoder accepts what the stream decoder reads, with the same type and payload |
| `Frames.SlicePanics` | src/protocol.rs:427-439 | its slice of the payload is out of range on exactly the known types with a size below 4, which the stream decoder refuses |
| `Frames.FromBytesAgrees` | src/protocol.rs:267-312 | on all byte strings: when `from_bytes` succeeds, and that it reads the message of the stream decoder |
| `Frames.FromBytesByCursor` | src/protocol.rs:267-312 | the cursor's field-by-field reading is decoding the rest of the frame as a message |
| `Utf8.LossyIffValid` | src/protocol.rs:315-317 | the lossy decoding of an id is always valid UTF-8, and is the id itself if and only if that was valid |
| `Frames.AnswerCarriesId` | src/protocol.rs:195-318 | FIN, REQ and TOUCH name bytes 18 to 33 of the received frame, if and only if these are valid UTF-8 without space and newline |
| `Frames.AsciiIdIsNamed` | src/protocol.rs:315-318 | they name every id of printable ASCII, as servers send |
| `ConnectionImplementation.Connection.ReadFrame` | src/connection.rs:172-201 | the buffered reads are one step of the stream decoder, for every stream |
| `ConnectionImplementation.Connection.WriteBytes` | src/connection.rs:162-170 | all bytes are appended, or a prefix if the write is cut |
| `ConnectionImplementation.Connection.Initialize` | src/connection.rs:60-105 | it succeeds if and only if its writes get out and its replies are accepted; then magic, IDENTIFY and AUTH are on the wire in this order, otherwise a start of them |
| `ConnectionImplementation.AcceptedIffResponse` | src/connection.rs:69-82 | a reply is accepted if and only if the frame reader would read it as a response frame |
| `ConnectionImplementation.HandshakeReads` | src/connection.rs:69-102 | the handshake succeeds if and only if the peer sent one response frame for each of its commands, and leaves what follows |
| `Writers.TaskOrder` | src/connection.rs:157-170 | over every interleaving: the commands of each sender went out in the order it asked for them |
| `Writers.ServerRecoversIff` | src/connection.rs:60-170 | whenever the lock is free after a run: the server reads back handshake and commands sent if and only if no write of the run was cut and all are well-formed |
| `Writers.TornRun` | src/connection.rs:162-170 | a time-out before the first byte of any command leaves a free lock and a stream that is not read as what was sent |
| `Writers.SendersCompose` | src/connection.rs:157-170 | so without time-outs the wire is a whole-command interleaving whenever the lock is free |
| `DeliveryAnswers.AtMostOnceIff` | src/protocol.rs:220-251 | no message is answered twice, for all interleavings, if and only if answers are manual or clones answer before the handler returns |
| `DeliveryAnswers.ExactlyOnceIff` | src/consumer.rs:270-312 | each message is answered exactly once before its RDY step, if and only if answers are automatic and clones answer in time and are not cancelled |
| `DeliveryAnswers.CountedRightIff` | src/consumer.rs:270-309 | for every counted message, over every interleaving: what was attempted is the one answer it is counted as, if and only if it was answered automatically only, or by a clone only and with the answer of the verdict |
| `DeliveryAnswers.AnswerMatchesOutcome` | src/consumer.rs:270-309 | without late and cancelled clones: if and only if the handler made no answer of its own, or the one that goes with its verdict |
| `DeliveryAnswers.RequeuedCountedFinished` | src/consumer.rs:88-94 | in every configuration a message can be requeued by its handler and counted as finished |
| `DeliveryAnswers.DisableIsIgnored` | src/consumer.rs:270-296 | the consumer's copy of the flag stays unset whatever the handler does to its copies, so the automatic answer depends on the configuration and the responded flag only |
| `DeliveryAnswers.DisabledAndFinished` | src/consumer.rs:50-53 | a run in which the handler disables the automatic answer of its message, answers nothing, and the FIN is sent |
| `DeliveryCredit.Credit` | src/consumer.rs:213-322 | over every interleaving the credit is at most M, and above M/2 but for refills under way and refills that failed |
| `DeliveryCredit.MoreThanHalf` | src/consumer.rs:311-322 | with no refill under way or failed more than half the credit is left |
| `DeliveryCredit.OnePermit` | src/consumer.rs:311-322 | with one permit: the credit is M - n mod ceil(M/2) and 1 + n div ceil(M/2) RDY commands were sent |
| `DeliveryCredit.Backpressure` | src/consumer.rs:193-268 | a connection's live tasks never exceed its permits, and it has taken at most one message more |
| `DeliveryAddresses.BoundedByAddressIff` | src/consumer.rs:193-268 | no address ever has more live tasks than configured handlers, if and only if addresses are connected only once; and the same of receiving at most one message ahead of them |
| `DeliveryAccounting.Accounting` | src/consumer.rs:250-323 | received messages are finished, requeued, unanswered, failed answers, panics, with a task, or waiting for a permit |
| `AnswersImplementation.Message.Answer` | src/protocol.rs:220-251 | the first answer wins and is sent, later ones send nothing and report success |
| `AnswersImplementation.Message.TouchIt` | src/protocol.rs:254-264 | TOUCH is sent for messages not yet answered only |
| `AnswersImplementation.Handler.Run` | src/consumer.rs:267-323 | which answer is sent and which counter raised, by the handler's own answer, its verdict and the writes that are cut; the task is an execution of the step system, with its credit and its RDY commands |
| `ConsumerImplementation.SubscriptionIsRead` | src/consumer.rs:342-380 | the SUB line of every accepted consumer is read back as its topic and channel |
| `ConsumerImplementation.Consumer.New` | src/consumer.rs:336-362 | a consumer is made for valid names only |
| `ConsumerImplementation.Consumer.ConnectToNsqd` | src/consumer.rs:391-495 | what a connect adds, when it fails and when it does nothing; counter and map agree |
| `ConsumerImplementation.Consumer.DisconnectFromNsqd` | src/consumer.rs:497-504 | the connection is removed, counted out and closed, also if the close fails |
| `ConsumerImplementation.Consumer.Stop` | src/consumer.rs:511-541 | the registry is emptied, also at the deadline; the connections closed are those drained in time, in order |
| `ConsumerImplementation.Consumer.Poll` | src/consumer.rs:559-578 | a lookup round adds exactly the reachable new nodes and keeps all others |
| `ReaderLoop.HandleConnection` | src/consumer.rs:209-332 | the reader loop sends SUB, RDY and the NOPs it owes, also when writes are cut, delivers what the specification `Handle` says, for every stream, and takes every turn as a move of the step system, between any moves of the others; what it delivered has tasks of its epoch |
| `ReaderDelivery.WaitsWhenFull` | src/consumer.rs:264-268 | it waits for a permit only when as many tasks of its connection are live as there are handlers |
| `ReaderDelivery.DeliversWhatWasSent` | src/consumer.rs:220-329 | end to end: of the frames a server encodes, exactly the messages are delivered, in order, and each heartbeat and tick is answered by one NOP; if it ends up waiting for a permit, this holds of everything before the message it holds |
| `ReaderDelivery.FatalEnds` | src/consumer.rs:242-249 | an error frame naming E_INVALID ends the loop behind what came before it, unless it waits for a permit before that |
| `ReaderDelivery.ShortMessageCrashes` | src/protocol.rs:485-492 | a message frame with a payload of 4 to 25 bytes ends the loop by a panic, a shorter one by an error |
| `Registry.RegistryAgreement` | src/consumer.rs:391-541 | over every interleaving: whenever the map is unlocked the counter is its size, and it is never negative |
| `Errors.RetriedIff` | src/consumer.rs:440-448 | for every cause of an error and every text in it: exactly when the loop makes the connection again |
| `Reconnect.KeepConnected` | src/consumer.rs:414-489 | it reconnects after exactly the errors that are retried; each sleep is between its base and 1.3 times its base, the base being a function of the failures since the last success |
| `Reconnect.SinceLastSuccess` | src/consumer.rs:470-480 | these failures are the attempts behind the last success |
| `Reconnect.BaseLimit` | src/consumer.rs:415-459 | the base is 2^n seconds up to 32 and 60 from there on |
| `Reconnect.AfterStop` | src/consumer.rs:220-489 | stopped at any point, a connection begins at most one more frame, and only if it was waiting for one, no more reconnect, and ends within three steps |

## Left out

- Cancelled pool calls: a `get` can be dropped while it waits on its oneshot, before or after it was served; a
  future dropped at another await is not modelled.
- Clones of a pooled connection: every caller puts back each connection it got once.
- PoolTheorems.Capped: stated until `release` is called, like conservation; what can happen beyond that is the subject
  of `PoolCap.ExceedIff` and `PoolRelease.UnderflowIff`.
- PoolOperations.GetStrandsNobody: said of calls that do not overlap; for interleaved calls it is false, see
  `PoolStranding.StrandedIff`.
- PoolOperations.PutStrands: said of calls that do not overlap, like the row above.
- PoolWaiting.NobodyWaitsInVain: said of calls that do not overlap, as it is meant; the exact condition for
  interleaved calls is `PoolStranding.StrandedIff`.
- PoolWaiting.PutServesNewest: said of calls that do not overlap.
- Operations of the class `Pool` run without interruption; their interleavings are those of the step system.
- Time is a natural number that does not decrease.
- Sockets, TCP connect retry, HTTP lookup, JSON, host names and logging: outcomes of foreign calls are arbitrary,
  the JSON of IDENTIFY is opaque bytes, strings are their UTF-8 bytes.
- Reads cut by a time-out or a cancelled `select!` in the middle of a frame.
- Writes between a reconnect's exchange of the stream and its new handshake: wire order is stated for the first
  connection of an address.
- ConnectionImplementation.Connection.Initialize: a reply whose size is 1 to 3 is a crash, as the subtraction of 4
  underflows; a build that wraps around instead is not modelled.
- DeliveryCredit.Backpressure: the bound is for each connection; for addresses see
  `DeliveryAddresses.BoundedByAddressIff`.
- The RDY counter is an unbounded integer; that failed refills take it below the range of i32 is not modelled.
- Reconnect.KeepConnected: jitter is computed over reals, not f32.
- `stats()` reads its counters one by one; accounting is stated on the counters themselves.
- Pairing of a producer's publish with its acknowledgement: not decided by the code.
- `write_command`, `encode_command`, unused configuration fields, the test for a zero reference count:
  not part of this model, as nothing else depends on them.
