# NovaApp realtime protocol: a verified model

A Dafny model of the realtime messaging protocol under `server/src`: the
end-to-end ratchet, the server that admits, logs and replays messages, and the
client that drives it. Each object that the source updates in place is a class
here; its methods are proved equal to a specification function of the old state,
and the theorems are about every run of those functions. `dafny verify
dfyconfig.toml` checks the whole project.

## What is modelled

**Ratchet** (`Crypto`, `Ratchet`, `RatchetRun`, `ForkedRun`, `FailedDecrypt`,
`PreviousLength`, `SenderRun`). `RatchetSession` with its chains, counters,
skipped-key map and replay set, over symbolic cryptography: a Diffie-Hellman output
is the unordered pair of its two key pairs, HKDF and HMAC outputs are injective
constructors, and a sealed box opens exactly with the key and associated data it was
made with. `RatchetRun` joins two sessions by a network that may drop, repeat and
reorder authentic bodies; a step is legal when its body is of the current ratchet
key or of one not yet left behind, and the skipped map stays within its limit. Over
all legal runs the first delivery of a body yields its plaintext and any later one
is refused with the state unchanged. Outside legal runs that promise is false of the
code: a ratchet step keeps no tail of the old chain, and any key other than the
current one starts a step. `OpensExactlyWhen` and `ReplayExactlyWhen` say, for every
authentic body in every state a legal run reaches, exactly when it opens and exactly
when a refusal leaves the session as it was; `LateMessageLost` and
`ReplayChangesSession` are runs that reach the failing side of each. `ForkedRun`
shows what one such body costs: from then on, whatever is delivered, neither side
opens anything on a chain the other starts. `FailedDecrypt` says what each failing
call leaves: the session moves before the body is opened, so a forged body costs the
genuine one its key. `PreviousLength` decides when previous_chain_length is what its
name says. `SenderRun` takes one session against an arbitrary network, forged bodies
included.

**Dedup, log, sync, client** (`MessageDedup`, `RealtimeStore`, `Messaging`,
`SplitHandlers`, `Sync`, `NovaClient`, `AccountSync`, `ExactlyOnce`). The
tick-scanning dedup map is shown to be a least-recently-used list, and that list to
hold exactly the ids touched with fewer than `windowSize` distinct others since.
Each message handler is one step on the dedup window and the store; `SplitHandlers`
cuts the same handlers at every `await`. There numbers stay unique, but a receipt
can be logged before its message and a retry can be acked with number 0; both are
decided exactly, by which sends are suspended where. `Sync` is the paged replay and
the client walk with the server logging in between the rounds; with the two reads of
a round apart, the walk is gap-free exactly when every round was full or
undisturbed. `AccountSync` is the account-wide reply over every run of the
connections, and the client that follows all its conversations. `ExactlyOnce` puts
the client outbox, a lossy network, the acks and all other users of the server
together.

**Connections** (`ChallengeStore`, `SessionRegistry`, `Handshake`,
`MemoryDirectory`, `AuthFailures`, `Gateway`, `GatewayRun`, `GatewayLife`,
`GatewayServes`). Challenges, sessions, devices, sockets, rooms and presence as one
state, each handler as one step (the two halves of `adminRevokeDevice`, which an
`await` separates, as two), and invariants over every run in which random ids are
fresh and socket ids are not reused. `GatewayLife` decides how long a session lives,
`GatewayServes` what a login, a room and a presence update are good for.

**Server object** (`RealtimeServer`). The handlers as methods over the objects
above, each proved to take exactly the steps that `Gateway`, `Messaging` and `Sync`
define.

**Rate limiter** (`TokenBucket`). Real arithmetic, with every clock reading a
parameter.

Clock readings, generated keys, random ids and the verdicts of rate limits and
payload parsing are parameters throughout.

## Model

The rows come in three groups: the results, the lemmas they are built from, and
the methods with the step each is proved to take.

| member | source | states |
|---|---|---|
| RatchetRun.DeliverOnce | server/src/client/e2ee.ts:229-347 | In every legal run from establishSessions the first delivery of a body decrypts to exactly the sent text and every later one is refused with the whole state unchanged. |
| RatchetRun.OpensExactlyWhen | server/src/client/e2ee.ts:252-295 | A genuine body not opened before opens if and only if its key is stored, or it comes in key order and within the limit; nothing but the sent text ever comes out. |
| RatchetRun.ReplayExactlyWhen | server/src/client/e2ee.ts:263-267 | A genuine body opened before is always refused, and the refusal leaves the session as it was if and only if its key is still current. |
| RatchetRun.Lockstep | server/src/client/e2ee.ts:252-347 | Sending-chain indices differ by exactly one; a party of epoch e sends sendCount advances along chain e and receives receiveCount advances along chain e-1, also after the peer moved on; skipped and decrypted numbers partition 0..receiveCount-1; a peer still on that chain is ahead by what is on the way. |
| RatchetRun.LateMessageLost | server/src/client/e2ee.ts:332-347 | A concrete run in which an authentic message, delayed past the next ratchet key, fails to open although it was never delivered. |
| RatchetRun.ReplayChangesSession | server/src/client/e2ee.ts:254-267 | A concrete run in which a second copy of an opened message is refused as a replay and the refusal changes the session. |
| ForkedRun.NeverHeals | server/src/client/e2ee.ts:254-261 | After a body of a key left behind, opened or not, in every continuation, forged bodies included, neither side ever opens a body of a chain the other made at that moment or later. |
| ForkedRun.DuplicateEndsSession | server/src/client/e2ee.ts:254-267 | A concrete run in which one late duplicate of an opened message reaches Bob and what he writes next can not be opened by Alice. |
| FailedDecrypt.NextKeyBurnt | server/src/client/e2ee.ts:277-293 | A body not met before, not behind the chain and within 2000 skipped keys: it opens if and only if it was sealed with the key of its number; otherwise the call fails, the keys of the numbers passed are stored, the chain stands one past its number, and the number is recorded nowhere. |
| FailedDecrypt.GenuineLost | server/src/client/e2ee.ts:288-292 | After that, the genuine body of the number fails too, and costs one key more. |
| FailedDecrypt.GenuineStoredLost | server/src/client/e2ee.ts:269-275 | A body that does not open with the stored key of its number uses that key up, and the genuine body then fails. |
| FailedDecrypt.ForgeryLosesMessage | server/src/client/e2ee.ts:288-295 | From establishSessions: a forged body in the name of the first message makes the receiver refuse the message itself. |
| PreviousLength.AnnouncesPreviousChain | server/src/client/e2ee.ts:229-347 | In every legal run, previous_chain_length is the number of messages its sender sent on the chain before, except on the second chain of the party that opened, where it is 0. |
| SenderRun.NeverReused | server/src/client/e2ee.ts:229-347 | Over every run of encrypt and decrypt, forged bodies included, no two emitted bodies share a (number, ratchet key) pair or a message key, and below 2^32 none share associated data. |
| Crypto.X3dhAgreement | server/src/client/e2ee.ts:117-156 | With or without a one-time key, the receiver derives the sender's secret if and only if it is told correctly whether one was used. |
| Crypto.SecretBinds | server/src/client/e2ee.ts:117-156 | With distinct keys, a receiver derives the sender's secret if and only if it is Bob, was told Alice's identity and ephemeral keys, each in its place, and the truth about the one-time key. |
| ExactlyOnce.SentExactlyOnce | server/src/client/nova_client.ts:197-205 | Through lost and repeated packets and acks, reconnects and flushes: at most one message.new for the id, exactly one if acked, carrying what the outbox wire carries, and every ack carries the number it was logged under. |
| ExactlyOnce.LoggedAgainExactlyWhen | server/src/realtime_server.ts:601-642 | A repeated packet is logged a second time if and only if its entry has left the dedup window. |
| ExactlyOnce.LoggedTwice | server/src/realtime_server.ts:618-695 | A family of runs with a window of one: any message of another sender between two packets of a message, and it is logged twice. |
| Messaging.RunInv | server/src/realtime_server.ts:561-911 | Over every run: entry i has log_seq i+1, the k-th message of a conversation has server_seq k, receipts point back, marks stay in range, stored messages are logged. |
| Messaging.NumbersRiseWithoutGap | server/src/store/realtime_store.ts:96-121 | Message numbers rise along a log and are exactly 1..latestSeq. |
| Messaging.SentIsLogged | server/src/realtime_server.ts:601-722 | A send acked as new adds one entry to its conversation and none elsewhere, with ciphertext, header type, key, sender, numbers and time as sent and acked, and is found under its key; a duplicate logs nothing. |
| Messaging.ReceiptIsLogged | server/src/realtime_server.ts:812-847 | A receipt is logged if and only if the message is stored, in that conversation, by another account; then under its number, in the name of the reporting device. |
| Messaging.ReadIsLogged | server/src/realtime_server.ts:885-906 | The logged mark is the one asked for if it lies in 0..latest, the nearest of these otherwise, and the latest if none was asked for. |
| Messaging.OnlyOwnDuplicates | server/src/realtime_server.ts:604-618 | Over every run, a send is a duplicate only if the same account sent under that id and recipient device before: no account can swallow another's messages. |
| Messaging.DuplicateNumberExactlyWhen | server/src/realtime_server.ts:618-641 | Over every run, a duplicate is acked with the stored number if and only if the stored message is that account's in that conversation, and with 0 otherwise. |
| Messaging.NothingInvented | server/src/realtime_server.ts:561-911 | Over every run, every logged message, receipt and mark was asked for by an operation of the run, by the account and device it names and with what the message carries. |
| SplitHandlers.UniqueUnderInterleaving | server/src/realtime_server.ts:618-695 | Cut at every await and interleaved freely, the handlers, dedup included, still number the log 1, 2, 3, ... and give no two messages of a conversation one number. |
| SplitHandlers.NothingInventedCut | server/src/realtime_server.ts:561-911 | The same over every run of the cut handlers, also of every suspended one. |
| SplitHandlers.LogsInOrderExactlyWhen | server/src/realtime_server.ts:644-847 | Over every run of the cut handlers, every receipt in every log follows its message if and only if no receipt was appended while a send had that number in hand. |
| SplitHandlers.ReceiptInOrderExactlyWhen | server/src/realtime_server.ts:812-847 | In every run of the cut handlers, the message that a receipt in preparation reports is in the log if and only if no suspended send of that conversation still has its number between persist and append. |
| SplitHandlers.ReceiptBeginsExactlyWhen | server/src/realtime_server.ts:812-821 | The same at the moment the receipt finds its message. |
| SplitHandlers.GuardSuffices | server/src/realtime_server.ts:812-821 | If no receipt begins while a send of its key stands between persist and append, all logs are in order however the handlers interleave. |
| SplitHandlers.ReceiptBeforeMessage | server/src/realtime_server.ts:659-695 | A concrete run of the cut handlers in which a receipt is appended too early, so that a log is out of order. |
| SplitHandlers.ZeroAckExactlyWhen | server/src/realtime_server.ts:618-641 | In every run of the cut handlers in which one account uses the id in one conversation, a retry is acked with number 0 if and only if no send of it has persisted, and one is then in flight; otherwise with the stored number. |
| SplitHandlers.ZeroAckExactlyInFlight | server/src/realtime_server.ts:618-659 | If no retry ever misses the window, that ack is 0 if and only if the original stands between its number and its persist. |
| SplitHandlers.ZeroAck | server/src/realtime_server.ts:618-644 | A concrete run that ends with such an ack. |
| Sync.WalkFromAnyRun | server/src/realtime_server.ts:973-1002 | The same from every state the server can reach. |
| Sync.WalkEnds | server/src/realtime_server.ts:982-988 | On a fixed log with n events left, round k is the last exactly from k = floor(n/limit)+1 on, and the cursor is then at the head. |
| Sync.CutPageExactlyWhen | server/src/realtime_server.ts:976-988 | With the events and the head read apart, a page lacks nothing before its cursor if and only if it is full or nothing was appended in between; what it lacks is exactly what was appended. |
| Sync.CutWalkExactlyWhen | server/src/realtime_server.ts:973-1002 | From every reachable state and over every walk with the reads apart, what was received is the log up to the cursor if and only if every round was full or undisturbed. |
| Sync.SkippedEvent | server/src/realtime_server.ts:976-988 | A message logged between the two reads of a first round is passed over, and no continuation of the walk makes up for it. |
| AccountSync.AccountWideOnEveryRun | server/src/realtime_server.ts:946-1002 | The same in every state that any run of the connection side reaches, on any store. |
| AccountSync.FollowsEveryLog | server/src/client/nova_client.ts:494-550 | A client syncing any lists of conversations in any rounds, the server logging in between, has received of each conversation exactly the log between its cursors, in order; what it holds besides what it held is the first announcement of each message received, as it came, in that order. |
| NovaClient.FollowsLog | server/src/client/nova_client.ts:494-550 | A client following a conversation by sync rounds holds, besides what it held, exactly the messages of the log from its first to its current cursor, as logged, in log order, each once. |
| NovaClient.ApplyEventsHolds | server/src/client/nova_client.ts:527-548 | Said of the events alone: the inbox gains each new id with the first event that announced it, as it came, and appliedOrder lists them in that order. |
| MessageDedup.RecentExactlyWhen | server/src/protocol/message_dedup.ts:23-48 | The newest windowSize entries of that list are exactly the ids touched with fewer than windowSize distinct others since. |
| MessageDedup.AcceptTracks | server/src/protocol/message_dedup.ts:23-48 | One call does to the tick map what moving to the front and cutting does to a least-recently-used list. |
| TokenBucket.SeenIsLeast | server/src/rate_limiter.ts:32-62 | With a rising clock, the tokens a call finds are the least, over all earlier calls and itself, of burst + perMinute*(t_k - t_j)/60000 less the grants since. |
| TokenBucket.RefusedExactlyWhen | server/src/rate_limiter.ts:57-62 | A call is refused if and only if granting it would overdraw some window ending with it. |
| TokenBucket.WindowBound | server/src/rate_limiter.ts:32-67 | From any call at time t on, grants are at most burst + perMinute*(M - t)/60000, M bounding the readings of the stretch. |
| GatewayRun.HandshakesConserved | server/src/protocol/challenge_store.ts:104-133 | In every run each challenge and each socket yields at most one success, all with different session ids, on the challenge's own socket, in time, for a device active under the claimed account and nova id. |
| GatewayRun.SessionsSound | server/src/realtime_server.ts:405-411 | Every registered session belongs to a connected socket bound to it, and no device has two. |
| GatewayRun.NeverResurrected | server/src/protocol/session_registry.ts:75-103 | A session id once evicted, revoked or expired never validates again, on any socket. |
| GatewayRun.RevocationHolds | server/src/realtime_server.ts:1147-1165 | With arbitrary steps between the two halves of a revocation, once the second has run and until the device is registered again it has no session and none of its sockets passes the guard. |
| GatewayRun.PresenceSound | server/src/realtime_server.ts:308-348 | A stored status of online always has a connected socket with a session of that account. |
| GatewayRun.RoomsSound | server/src/realtime_server.ts:727-742 | A conversation-wide packet goes only to connected sockets of members, never to its emitter. |
| GatewayLife.GuardPassesExactlyWhen | server/src/realtime_server.ts:457-473 | An event passes the guard if and only if the session bound to its socket is registered, for this socket, and its time is not over; passing renews it for a full period, a lapsed one is removed, any other refusal changes nothing. |
| GatewayLife.SessionLivesExactlyWhen | server/src/protocol/session_registry.ts:50-128 | Over every run, a session is still registered if and only if its socket did not disconnect, neither it nor its device was revoked, its device did not log in again and its socket was not used after its time. |
| GatewayLife.IdleSessionDies | server/src/protocol/session_registry.ts:75-86 | Over every run, once a socket's session went unused past its expiry, no later event of the socket passes the guard. |
| GatewayLife.UntouchedForAPeriod | server/src/protocol/session_registry.ts:75-86 | The same from the last event that passed: none more than sessionTtlMs later passes unless one in between did. |
| GatewayServes.HandshakeCompletes | server/src/realtime_server.ts:246-411 | Over every run, a connection that answers its own challenge in time, signed by an active device, is let in, whatever else happened in between. |
| GatewayServes.LoginOpens | server/src/realtime_server.ts:411-421 | What a login leaves: the bound and registered session, field by field, and the rooms of account, device and each conversation of the account. |
| GatewayServes.StepRoomsExactlyWhen | server/src/realtime_server.ts:411-421 | A socket is in a room after a step if and only if it was and did not disconnect, or its login or its use of a conversation of its account lets it in. |
| GatewayServes.MembersReached | server/src/realtime_server.ts:727-742 | Over every run, from its login to its disconnect a socket is reached by every conversation-wide packet, not its own, of its account's conversations. |
| GatewayServes.StepPresenceIs | server/src/realtime_server.ts:308-348 | Presence changes in two ways only: an admitted update stores its own record, and the last live socket to go stores offline with the time it went. |
| GatewayServes.PresenceStays | server/src/realtime_server.ts:1036-1063 | Over every run, while a socket of the account stays and nobody updates it, its stored presence stays. |
| ChallengeStore.SweepInvisible | server/src/protocol/challenge_store.ts:62-141 | Under a rising clock a sweeping store answers every call sequence as one that never sweeps, except that an expired challenge may be reported as unknown. |
| AuthFailures.CleanupInvisible | server/src/auth_failure_tracker.ts:36-63 | Under a rising clock, a tracker that deletes stale entries gives the same replies to every call sequence as one that never does. |
| AuthFailures.LockedExactlyWhen | server/src/auth_failure_tracker.ts:36-63 | Over every history under a rising clock, a key is locked if and only if its window is open and holds at least the threshold of failures. |
| AuthFailures.BurstLocks | server/src/auth_failure_tracker.ts:36-58 | A burst of failures locks from the threshold on until windowMs after the first. |
| Crypto.AdvanceNInjective | server/src/client/e2ee.ts:179-185 | A chain key determines the seed it came from and its position. |
| Crypto.UInt32LEInjective | server/src/client/e2ee.ts:189-190 | The four written bytes determine the counter modulo 2^32. |
| Crypto.AadInjective | server/src/client/e2ee.ts:187-192 | Two associated data coincide if and only if the ratchet key and both 32-bit counters do. |
| Crypto.OnlyWholeKeys | server/src/client/e2ee.ts:117-156 | Either side of X3DH succeeds if and only if every key it is given is 32 bytes long. |
| RatchetRun.EstablishInv | server/src/client/e2ee.ts:364-387 | establishSessions never throws and its two sessions satisfy the pair invariant. |
| RatchetRun.SkipToClosed | server/src/client/e2ee.ts:277-286 | Closed form of the loop: it stops at the limit, or stores exactly the keys of the numbers passed, each with its scheduled chain position. |
| RatchetRun.ReceiveCurrent | server/src/client/e2ee.ts:263-295 | A genuine body of the current chain: refused if opened before, else its plaintext unless the skipped map would overflow, with all bookkeeping kept exact. |
| RatchetRun.SendKeepsPair | server/src/client/e2ee.ts:229-249 | encrypt on either side keeps the joint invariant of both sessions. |
| RatchetRun.DeliverKeepsPair | server/src/client/e2ee.ts:252-347 | A legal delivery keeps the joint invariant and answers the sent plaintext, or a replay error with nothing changed. |
| RatchetRun.StepInv | server/src/client/e2ee.ts:229-347 | Every legal step keeps the two-party invariant; a delivery is recorded as opened exactly when it is the first. |
| RatchetRun.RunInv | server/src/client/e2ee.ts:229-347 | The invariant holds after every legal run, and the opened bodies are exactly the delivered ones. |
| RatchetRun.AnswerOld | server/src/client/e2ee.ts:254-261 | A body of a key left behind opens only from a stored key; otherwise it is lost, and in every case it changes the session. |
| ForkedRun.ForkInv | server/src/client/e2ee.ts:254-261 | An authentic body of a key left behind puts its receiver on a branch of the root chain that no root of the shared schedule, nor the peer, is on. |
| ForkedRun.HearInv | server/src/client/e2ee.ts:252-347 | decrypt, on any body, keeps each side on its own side of the fork; whatever opens was sealed with a key of a chain of that side or from before. |
| FailedDecrypt.BadKeyKeeps | server/src/client/e2ee.ts:252-261 | A new key that is not 32 bytes long is refused with nothing changed; any other makes the session stand on it, whatever becomes of the body. |
| FailedDecrypt.NoChainYet | server/src/client/e2ee.ts:277-288 | Before anything was received, a body without a new key is refused with nothing changed. |
| FailedDecrypt.ReplayRefused | server/src/client/e2ee.ts:263-267 | A number opened before on the current key is refused, whatever the body, with nothing changed. |
| FailedDecrypt.StoredKeyBurnt | server/src/client/e2ee.ts:269-274 | A body that does not fit the stored key of its number removes that key and changes nothing else. |
| FailedDecrypt.TooFarRefused | server/src/client/e2ee.ts:277-286 | A number too far ahead is refused after the map was filled to 2001 keys. |
| FailedDecrypt.LimitLeaves | server/src/client/e2ee.ts:277-286 | Which keys the map holds then, and where the chain stands. |
| PreviousLength.StepCounts | server/src/client/e2ee.ts:229-347 | Every legal step keeps the counters equal to the numbers of messages sent on each chain. |
| SenderRun.DecryptKeepsSending | server/src/client/e2ee.ts:252-295 | decrypt, on any body and however it ends, leaves root, sending chain, own key and send count as a ratchet step alone would. |
| MessageDedup.TouchKnown | server/src/protocol/message_dedup.ts:24-27 | Re-touching a known id keeps the map equal to the window. |
| MessageDedup.TouchNew | server/src/protocol/message_dedup.ts:28-30 | Adding a new id and evicting the oldest only above windowSize keeps the map equal to the window. |
| MessageDedup.OldestSize | server/src/protocol/message_dedup.ts:38-48 | The ids touched after the oldest remembered one are exactly the other remembered ids. |
| RealtimeStore.EventsSinceIsSegment | server/src/store/realtime_store.ts:123-133 | On a well-numbered log, filter, sort and slice return the contiguous piece after the cursor. |
| RealtimeStore.SortedIsSorted | server/src/store/realtime_store.ts:129-132 | On any log, replay sorts by log number and keeps every event it selects. |
| Messaging.AcceptedInv | server/src/realtime_server.ts:644-695 | An accepted message keeps every log well formed and only extends logs. |
| Messaging.ReceiptInv | server/src/realtime_server.ts:812-847 | So does a delivered receipt, which points to an earlier message of another account. |
| Messaging.ReadInv | server/src/realtime_server.ts:885-906 | So does a read receipt, its mark clamped to what was logged before it. |
| Messaging.RunKeeps | server/src/realtime_server.ts:561-911 | From any well-formed state, every run keeps the logs well formed and only extends them. |
| Sync.PageIsSegment | server/src/realtime_server.ts:976-988 | A page is the log from the request's cursor to its own, and has_more says exactly whether the limit was reached. |
| Sync.WalkGapFree | server/src/client/nova_client.ts:494-550 | Whatever is logged between the rounds, the concatenated pages are the log between the starting and the current cursor, in order, nothing skipped or repeated. |
| Sync.AccountWideRefinesSingle | server/src/realtime_server.ts:946-1002 | With inverse membership indexes, the account-wide reply has exactly one entry per conversation the account may read, each equal to the single-conversation reply. |
| NovaClient.ApplyEventsInbox | server/src/client/nova_client.ts:532-543 | Every message offered is in the inbox, applied once, and what was there before is untouched. |
| NovaClient.ApplyConcat | server/src/client/nova_client.ts:527-548 | Cutting a stretch of events into pages changes nothing. |
| NovaClient.FlushEmits | server/src/client/nova_client.ts:458-466 | A flush appends to what was emitted exactly the wires of the unacknowledged entries, in order; without a socket it stops at the first and emits nothing. |
| NovaClient.LiveMessage | server/src/client/nova_client.ts:206-218 | A live message is in the inbox afterwards, as it came unless held before, and the cursor is at least at its number; nothing else changes. |
| NovaClient.AckSettles | server/src/client/nova_client.ts:197-204 | An ack takes its message, and no other, out of what is pending and re-emitted. |
| NovaClient.SendIsEmitted | server/src/client/nova_client.ts:416-455 | A send is handed to the socket unless settled and not forced; a known id goes out with its first wire. |
| NovaClient.FlushAttempts | server/src/client/nova_client.ts:450-466 | A flush counts one attempt more for each unacknowledged entry and none for others. |
| AccountSync.AccountWideIsProper | server/src/realtime_server.ts:964-971 | An account-wide sync is such a round, in every directory the server can reach. |
| ExactlyOnce.FirstArrival | server/src/realtime_server.ts:644-722 | The first packet of a message to be admitted is logged once and acked with that number. |
| ExactlyOnce.RepeatedArrival | server/src/realtime_server.ts:618-642 | A repeated packet still in the window logs nothing and is acked with the original number. |
| ExactlyOnce.StepInv | server/src/client/nova_client.ts:416-466 | Every step of client, network, server and other users keeps the once-only invariant. |
| ExactlyOnce.CopyCarries | server/src/realtime_server.ts:664-695 | Every logged copy of the message carries what the outbox wire carries. |
| ChallengeStore.IssueLeavesLive | server/src/protocol/challenge_store.ts:62-80 | After an issue exactly the challenges still in time are stored, unchanged. |
| ChallengeStore.ConsumeExactlyWhen | server/src/protocol/challenge_store.ts:112-133 | Which verdict consuming gives, and that it burns the named challenge only. |
| Handshake.SucceedsExactlyWhen | server/src/protocol/handshake_engine.ts:81-146 | A handshake succeeds if and only if the device is active under the claimed identity, the challenge is live and this socket's, and the registered key signed the claims with it; which check a refusal names; a challenge that was reached is gone either way. |
| MemoryDirectory.AddMemberInverse | server/src/directory/memory_directory.ts:31-48 | The two indexes stay inverse, without repetition, and membership grows by exactly that pair. |
| AuthFailures.RecordCounts | server/src/auth_failure_tracker.ts:48-58 | A recorded failure answers how many its window now holds. |
| AuthFailures.CheckForgets | server/src/auth_failure_tracker.ts:36-45 | A check forgets its own key once the window is over, and nothing else. |
| GatewayRun.FailureOnlyBurns | server/src/realtime_server.ts:350-398 | A failed authentication changes nothing, or deletes the one challenge it named. |
| GatewayRun.RequireShrinks | server/src/realtime_server.ts:457-473 | The session guard can only remove or renew sessions, and what it passes is the session bound to the socket. |
| GatewayRun.StepHandshakes | server/src/realtime_server.ts:246-436 | Every step keeps the challenge, success and binding records consistent. |
| GatewayRun.StepSessions | server/src/protocol/session_registry.ts:50-128 | Every step keeps one session per device, each attached to its own connected socket. |
| GatewayRun.StepPresence | server/src/realtime_server.ts:308-348 | Every step keeps a socket behind each stored online status. |
| GatewayRun.StepRooms | server/src/realtime_server.ts:411-421 | Every step keeps each room to sockets whose session entitles them, and the membership indexes inverse. |
| GatewayRun.RunInv | server/src/realtime_server.ts:246-473 | All four invariants together after every run. |
| GatewayLife.StepLives | server/src/protocol/session_registry.ts:50-128 | One step ends a session exactly in those cases, and renews it exactly when its socket passes the guard. |
| GatewayServes.StepDevice | server/src/protocol/device_registry.ts:26-47 | A registration stores its record, a revocation changes the status of its device only, nothing else touches a device. |
| GatewayServes.DeviceStays | server/src/protocol/device_registry.ts:26-47 | Over every run without either, a device's record stays. |
| TokenBucket.StaysInRange | server/src/rate_limiter.ts:32-67 | Tokens stay in 0..burst for every call sequence, clock and drain. |
| TokenBucket.Conservation | server/src/rate_limiter.ts:32-67 | Grants since a call plus what is left never exceed burst plus what the refill mark has earned since, on any clock. |
| TokenBucket.AfterDrain | server/src/rate_limiter.ts:65-67 | A call after a drain finds only what was earned since the last refill. |
| TokenBucket.OneMinute | server/src/rate_limiter.ts:32-43 | 60000 ms after its last refill a drained bucket holds exactly perMinute tokens. |
| RealtimeServer.RefusalOrder | server/src/realtime_server.ts:561-599 | Which error a refused event gets, in the order guard, rate, payload, membership. |
| Ratchet.RatchetSession.InitSenderSession | server/src/client/e2ee.ts:211-221 | Starts a session as specified, or refuses a key of the wrong length. |
| Ratchet.RatchetSession.EncryptText | server/src/client/e2ee.ts:229-249 | The new state and the body or error are those of the specification the run theorems use. |
| Ratchet.RatchetSession.DecryptBody | server/src/client/e2ee.ts:252-295 | The same for decrypt, on any body, errors included with the state they leave. |
| Ratchet.RatchetSession.OpenWithCurrentKeys | server/src/client/e2ee.ts:263-311 | The replay, skipped-key and next-key branches, with the state each leaves when opening fails. |
| Ratchet.RatchetSession.StoreSkippedKeys | server/src/client/e2ee.ts:277-286 | The loop equals the recursive specification wherever it stops. |
| Ratchet.RatchetSession.InitReceiverChains | server/src/client/e2ee.ts:314-329 | First receive: both new chains from one root step each, counters reset, recorded previous length 0. |
| Ratchet.RatchetSession.DhRatchetStep | server/src/client/e2ee.ts:332-347 | Later ratchet steps differ from the first only in recording the old send count. |
| MessageDedup.MessageDedup.Accept | server/src/protocol/message_dedup.ts:23-31 | Answers false exactly when the id was touched before with fewer than windowSize distinct others since, for every history below the tick bound; the map's ids are those of the least-recently-used list. |
| MessageDedup.MessageDedup.EvictOldest | server/src/protocol/message_dedup.ts:38-48 | The scan removes the entry with the least tick and no other. |
| RealtimeStore.MemoryRealtimeStore.NextSeq | server/src/store/realtime_store.ts:96-100 | Counter afterwards and the number returned. |
| RealtimeStore.MemoryRealtimeStore.AppendEvent | server/src/store/realtime_store.ts:114-121 | Log and log counter afterwards and the number returned. |
| Sync.BuildPages | server/src/realtime_server.ts:973-1002 | The loop builds one page per target as specified, and has_more is true exactly if some page is full. |
| NovaClient.NovaClient.Send | server/src/client/nova_client.ts:416-424 | Outbox and emissions after sendEnvelope, including the forced case and a missing socket. |
| NovaClient.NovaClient.FlushOutbox | server/src/client/nova_client.ts:458-466 | The outbox order lists each entry exactly once; the ids returned are the unacknowledged ones in order, and each is re-emitted with its original wire. |
| NovaClient.NovaClient.Pending | server/src/client/nova_client.ts:469-471 | Returns exactly the unacknowledged entries of the outbox, each once, in insertion order. |
| NovaClient.NovaClient.OnMessageNew | server/src/client/nova_client.ts:206-218 | Inbox, order and cursor after a live message. |
| NovaClient.NovaClient.ApplyResponse | server/src/client/nova_client.ts:515-550 | Inbox, order and cursors after a whole sync response. |
| ChallengeStore.ChallengeStore.IssueChallenge | server/src/protocol/challenge_store.ts:62-80 | The new challenge is stored and everything expired is swept. |
| ChallengeStore.ChallengeStore.RebindChallenge | server/src/protocol/challenge_store.ts:92-102 | Binds a live wildcard challenge to the claimed identity; otherwise changes nothing. |
| ChallengeStore.ChallengeStore.ConsumeChallenge | server/src/protocol/challenge_store.ts:112-133 | Burns a known challenge whatever the verdict, and which verdict it gives. |
| ChallengeStore.ChallengeStore.SweepExpired | server/src/protocol/challenge_store.ts:136-141 | Deleting while looping removes exactly the expired challenges. |
| SessionRegistry.SessionRegistry.CreateSession | server/src/protocol/session_registry.ts:50-69 | The registry afterwards, and that the evicted sessions are exactly the device's, each once. |
| SessionRegistry.SessionRegistry.ValidateSession | server/src/protocol/session_registry.ts:75-86 | Verdict, expiry deletion and sliding renewal as specified. |
| SessionRegistry.SessionRegistry.RemoveByDevice | server/src/protocol/session_registry.ts:96-103 | Collect-then-delete removes exactly the device's sessions and returns each of them once. |
| Handshake.HandshakeEngine.HandleAuthResponse | server/src/protocol/handshake_engine.ts:70-147 | The ordered checks: the same stores and verdict as the specification, and the evicted sessions. |
| Handshake.DeviceRegistry.Revoke | server/src/protocol/device_registry.ts:42-47 | Marks a known device revoked and says whether it was known. |
| MemoryDirectory.MemoryDirectory.AddConversationMember | server/src/directory/memory_directory.ts:35-44 | Both membership indexes afterwards. |
| AuthFailures.AuthFailureTracker.CheckLocked | server/src/auth_failure_tracker.ts:36-45 | Verdict and deletion of isLocked as specified. |
| AuthFailures.AuthFailureTracker.Record | server/src/auth_failure_tracker.ts:48-58 | Count and window restart of recordFailure as specified. |
| TokenBucket.TokenBucketRateLimiter.RefillNow | server/src/rate_limiter.ts:32-43 | Refill as specified; a clock that stands still or goes back changes nothing. |
| TokenBucket.TokenBucketRateLimiter.Allow | server/src/rate_limiter.ts:57-62 | Verdict and new state of allowN, the refill being kept on refusal too. |
| RealtimeServer.RealtimeServer.OnConnection | server/src/realtime_server.ts:246-261 | Takes the connection step of the runs and touches no message state. |
| RealtimeServer.RealtimeServer.OnAuthResponse | server/src/realtime_server.ts:350-436 | Takes the authentication step, rooms included, and answers a session exactly on success. |
| RealtimeServer.RealtimeServer.RequireSession | server/src/realtime_server.ts:457-473 | The guard as specified, with the error code of each refusal. |
| RealtimeServer.RealtimeServer.OnDisconnect | server/src/realtime_server.ts:308-330 | Takes the disconnection step: registry, rooms, presence. |
| RealtimeServer.RealtimeServer.AccountHasLiveSocket | server/src/realtime_server.ts:342-348 | The loop answers whether some connected socket carries a session of the account. |
| RealtimeServer.RealtimeServer.OnMessageSend | server/src/realtime_server.ts:561-722 | For an admitted member, the ack and log of one Messaging step; in every other case the first error in the order guard, rate, payload, membership, and an unchanged log. |
| RealtimeServer.RealtimeServer.OnMessageDelivered | server/src/realtime_server.ts:783-847 | For an admitted member, one receipt step and its log number, or PAYLOAD_INVALID if the receipt names no foreign message of the conversation; otherwise the first error in order and an unchanged log. |
| RealtimeServer.RealtimeServer.OnMessageRead | server/src/realtime_server.ts:854-906 | For an admitted member, one read step and its log number; otherwise the first error in order and an unchanged log. |
| RealtimeServer.RealtimeServer.OnSyncRequest | server/src/realtime_server.ts:917-1002 | Either shape of request: the pages as specified for what the account may read, and the rooms joined; otherwise the first error in order. |
| RealtimeServer.RealtimeServer.OnPresenceUpdate | server/src/realtime_server.ts:1036-1063 | Takes the presence step, only for a valid status past the guard and rate limit. |
| RealtimeServer.RealtimeServer.MarkDeviceRevoked | server/src/realtime_server.ts:1147-1149 | The half of a revocation before its await. |
| RealtimeServer.RealtimeServer.KillDeviceSessions | server/src/realtime_server.ts:1151 | The half after it, with the sessions killed. |
| RealtimeServer.RealtimeServer.AdminRevokeSession | server/src/realtime_server.ts:1168-1173 | Removes the session and says whether there was one. |

## Left out

- Socket.IO and HTTP wiring, timers, delayed disconnects, logging, admin HTTP: I/O; a disconnect is a step that may come at any time.
- Real cryptography, base64, JSON and UTF-8: symbolic. Base64 texts are identified with their bytes, ciphertext, nonce and tag are one box, and low-order or non-canonical points are not represented.
- `server/src/store/supabase_store.ts` and `server/src/directory/supabase_directory.ts`: a remote database decides their behaviour.
- Rate limits, lockout, attempt counting and payload parsing inside the server handlers: their verdicts are parameters there; the bucket and the failure tracker are modelled on their own.
- Handlers read the clock once per step; the source reads it anew in each store call.
- Handlers are atomic except in `SplitHandlers`, in the cut rounds of `Sync` and between the halves of `adminRevokeDevice`. In particular ExactlyOnce.SentExactlyOnce, which promises one number in all acks, is about atomic handlers; SplitHandlers.ZeroAckExactlyWhen says when an interleaved retry is acked with 0 instead.
- Sync.WalkFromAnyRun: takes the two reads of a page (`server/src/realtime_server.ts:976-981`) as one step; Sync.CutWalkExactlyWhen says exactly when the walk is gap-free with the reads apart.
- Sync.AccountWideRefinesSingle: assumes inverse membership indexes; AccountSync.AccountWideOnEveryRun discharges that for every reachable directory.
- The permission checks, the joining of rooms and the emission of acks are not steps of their own in `SplitHandlers`: they change none of the state it is about.
- Presence audiences, relationships, call signalling, the packets fanned out and the directory's own copy of the devices: they feed back into no modelled state.
- The optional wire fields `message_type`, `envelope_version`, `expires_at_ms` and `client_ts_ms`: carried through unread.
- Client theorems are about single-copy messages: the client keys inbox and outbox by `message_id` alone, so per-device copies of one id collide there. The server's dedup and storage keys do include the device.
- A live `message.new` also advances the client's cursor, so no claim is made that live delivery mixed with sync has no gaps. Nor is it claimed that read marks only grow, or that the skipped map stays within 2000 once `decrypt` has thrown.
- `previous_chain_length` is authenticated and otherwise unused by the source; PreviousLength.AnnouncesPreviousChain says on which chain it is not the previous length.
- Keys built by joining texts with `#`, `|` or `-` are pairs here, so ids are taken to be free of separators.
- MessageDedup.MessageDedup.Accept: requires fewer than 2^53 - 1 earlier calls, because the eviction scan starts from `Number.MAX_SAFE_INTEGER` and finds no entry whose tick reaches it; RealtimeServer.OnMessageSend inherits this.
- RatchetRun.DeliverOnce: assumes legal runs; for the first step that is not legal the exact outcome is RatchetRun.OpensExactlyWhen and RatchetRun.ReplayExactlyWhen, and for all that follows a body of an old key ForkedRun.NeverHeals.
- ExactlyOnce.SentExactlyOnce: assumes that no other sender uses the id and that a repeated packet finds its entry in the window; ExactlyOnce.LoggedAgainExactlyWhen says exactly what happens otherwise.
- TokenBucket.SeenIsLeast: real arithmetic; the rounding of JavaScript numbers is not modelled.
- The waiting helpers, timeouts and queues of the client, `config.ts`, `logger.ts`, `events.ts`, `errors.ts` and the Flutter application: no protocol state.
