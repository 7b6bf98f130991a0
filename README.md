# droneworks coordination layer, in Dafny

This project models the distributed coordination layer of the droneworks
drone-swarm middleware. Each drone runs one node, and every node has five parts:

- **Reliable multicast** (`RMulticast`). It numbers a node's multicasts per sender and keeps an archive of them. On receipt it classifies each message as in order, duplicate or gap. It holds back early messages, asks the origin for the missing number with a negative acknowledgement (NACK), and re-multicasts archived messages on request.
- **Bully-style leader election** (`LeaderSubsystem`). It uses a UUID tie-break and three message handlers: ELECTION, ANSWER and COORDINATOR. A round is split in two: `StartRound` runs before the voting timeout and `EndRound` after it.
- **Peer table entries** (`Peer`). An entry is refreshed by every delivered multicast and counts heartbeats. Whether a peer is online depends only on the time.
- **Event registry**. It holds a list of handlers per event type. Emitting an event invokes that list in order.
- **Middleware facade**. It upserts peers and routes multicast and unicast messages by their type tag. It also looks up the leader, holds the supervisor's "start an election?" test, and chooses the heartbeat body.

The older single-file revision `node/communication.py` is modelled too. It has its own election variant: whole-UUID comparison, a multicast ELECTION, own-address filtering and an `isLeader` flag. Its sender merges headers with opposite precedence for multicast and unicast.

## How things are represented

- **Messages.** A message is a value: a header map from strings to string or number values, a body, a sequence number and an acknowledgement table. `get_header` returns an `Option`.
- **Stamping.** The transport always stamps the sender's uid, origin address and unicast port onto outgoing messages (`node/middleware/IPCommunication.py:35-37`). So the receive paths require `Stamped(m)`. A message missing those keys would raise `KeyError` in the source.
- **Objects updated in place are Dafny classes.** This covers `RMulticast`, `LeaderSubsystem`, `Peer`, the event registry, `Middleware` and the older `LeaderSubsystem`. Each method's `ensures` states the whole new state.
- **Transmissions and callbacks are ghost logs:**
  - `sent` holds transmissions through the IP sender;
  - `delivered` holds messages handed to the application by the reliable multicast;
  - `emitted` and `invocations` hold emitted events and the handlers they invoke;
  - `externalMcast` and `externalUcast` hold messages for the application's callbacks;
  - `leaderFoundCalls` counts calls of the older revision's leader-found callback.
- **Time** is a `real` parameter `now`. The offline timeout is 3 seconds, the value of `node/communication.py:18`.
- **The UUID time field** is `timeOf`, a fixed function from ids to naturals. Ids come from `uuid4`, so this field is random bits, but it is still a function of the id. The older revision's 128-bit UUID value is `uuidValue`.
- **Python's `<` on strings** is `Lexicographic.StrLess`. It is proved irreflexive, connected and transitive, so the new tie-break is a strict total order (`LeaderElection.TieBreakTransitive`).

### The hold-back drain, as written

`deliver_items_from_hb` iterates over the hold-back list with a `for` loop. Inside the loop it removes the matching entry and recurses for the next number. The outer iterator then carries on at the next index of the shortened list.

`ReliableMulticast.Scan` is exactly that walk. The method `RMulticast.DeliverItemsFromHoldBack` keeps the source's loop and recursion and is proved equal to `Scan`.

`CleanDrain` is the intended behaviour: it takes the contiguous run s, s+1, … of one sender. `ScanIsCleanDrain` proves that the as-written walk equals the clean drain whenever no two held-back entries share a (sender, number) key.

The hold-back list is appended to without deduplication, so that condition can fail. `DuplicateHeldBackDeliveredTwice` shows the consequence: a message held back twice is delivered twice.

### Where the code and the design text disagree

The model follows the code in each case:

- **Drain order.** An in-order message is delivered after the held-back successors it releases. The drain runs before the message itself is delivered (`ReliableMulticast.py:55-57`). `Scenarios.OutOfOrderDelivery` receives 2, 4, 3 and delivers in the order 2, 4, 3.
- **Far gap.** Numbers more than three ahead set the sender's counter to `seq + 3` (`ReliableMulticast.py:62`).
- **First contact with number 1.** A sender's very first message numbered 1 initialises its counter to 1 and is dropped as a duplicate (`ReliableMulticast.py:90-92`, `Scenarios.FirstMessageDropped`).
- **No "new leader" notification.** The current election emits nothing when a new leader is accepted. It emits an event only when this node is superseded as leader.
- **ELECTION by unicast, and never handled.** The current election unicasts ELECTION to the peers that would not lose (`LeaderElection.py:47`); it does not broadcast it. The election handler is reached only from the multicast dispatch (`Middleware.py:115-117`). The unicast dispatch (`Middleware.py:88-102`) gives every type except ANSWER and NEGATIVE_ACK to the application. So as written, an ELECTION never reaches its handler and no ANSWER is ever sent. Every round therefore ends with the node multicasting COORDINATOR. `Facade.ElectionUnicastReachesApplication` and `Facade.ElectionRoundReachesApplications` prove this routing. The handler is still modelled as written (`LeaderElection.py:60-66`), and `LeaderElection.TwoNodesOneAnswers` states the decisions it would make.
- **Unvalidated heartbeat rate.** A heartbeat rate at or above the offline timeout is not refused: the `ValueError` is built and never raised (`Middleware.py:22-23`).
- **No in-flight check.** The supervisor has no "round already in flight" check. In the source, rounds run synchronously on the supervisor thread.

### Revisions that do not fit together

The files of the current revision disagree on their interfaces, so each file is modelled against its own:

- `Middleware.py:62-63` builds the election subsystem with `rmcast=`, and without an event engine or peer list. `LeaderElection.py:29` expects `r_mcast`, `event_engine` and `peer_list`. `Facade.Middleware.constructor` builds the subsystem with the arguments that `LeaderElection.py:29` declares.
- `Middleware.py:158` reads `leader_election_neccessary`, but `LeaderElection.py:38` defines `leader_election_necessary`. The supervisor test reads the flag the subsystem defines.
- `LeaderElection.py:82` emits `MiddlewareEvents.LOST_LEADER_STATUS`. The class imported at `LeaderElection.py:8` does not define that name (`MiddelwareEvents.py:1-4`), so in Python the lookup raises `AttributeError`. It does so before `leader_uid` is assigned at `LeaderElection.py:84`. Nothing on the path catches it, because the multicast receiver loop (`IPCommunication.py:107-117`) has no handler around the callback. A node superseded as leader therefore never adopts the new leader, and its receive thread stops. The model emits the string `"LOST_LEADER_STATUS"` instead, and then adopts the new leader. See "## Left out".

## Model

| member | source | states |
|---|---|---|
| Messaging.NewMessage | node/middleware/Messaging.py:2-6 | a message built without seq or acks keeps its header and body, has sequence number 0 and an empty acknowledgement table |
| Messaging.GetHeader | node/middleware/Messaging.py:8-12 | returns the stored value when the key is present and None when it is absent |
| Messaging.TypeTagsDistinct | node/middleware/Messaging.py:15-20 | the five message-type tags are pairwise distinct, so dispatch on the type is unambiguous |
| Messaging.HeaderKeysDistinct | node/middleware/Messaging.py:23-29 | the six header keys are pairwise distinct |
| Lexicographic.StrLessIrreflexive | node/middleware/LeaderElection.py:55-56 | no id is smaller than itself in the string order the tie-break falls back on |
| Lexicographic.StrLessConnected | node/middleware/LeaderElection.py:55-56 | of two distinct ids exactly one is the smaller string |
| Lexicographic.StrLessTransitive | node/middleware/LeaderElection.py:55-56 | the string order is transitive |
| Peers.Refreshed | node/middleware/Peer.py:29-37 | an update sets last-alive to now and the address to the origin, keeps uid, port and name, and adds one heartbeat exactly when the type entry is `heartbeat` |
| Peers.Online | node/middleware/Peer.py:39-40 | defines `is_online` on values: less than the offline timeout has passed since last alive (used by `OnlineAfterRefresh` and the supervisor lemmas) |
| Peers.OnlineAfterRefresh | node/middleware/Peer.py:29-40 | a peer is online at the instant it was refreshed |
| Peers.HeartbeatsNeverDecrease | node/middleware/Peer.py:29-37 | over any run of updates the heartbeat counter never decreases and the uid never changes |
| Peers.Peer.constructor | node/middleware/Peer.py:11-17 | a new entry has the given uid, address, port and name, last-alive now and no heartbeats |
| Peers.Peer.FromHeader | node/middleware/Peer.py:11-17 | an entry built from a header takes uid, origin and port from it, defaults the name to "Not specified", and is online at once |
| Peers.Peer.Update | node/middleware/Peer.py:29-37 | the entry's new state is the refreshed one; heartbeats do not decrease and the peer is online at now |
| Peers.Peer.IsOnline | node/middleware/Peer.py:39-40 | `is_online` on the object: `Online` of the entry's current state |
| Events.Registered | node/middleware/MiddelwareEvents.py:9-14 | registering appends the handler to its type's list, creating the list if missing, and leaves every other type's list unchanged |
| Events.RegisterAllInOrder | node/middleware/MiddelwareEvents.py:12-14 | a run of registrations under one type lists the handlers after the earlier ones, in order, and touches no other type |
| Events.EventRegistry.constructor | node/middleware/MiddelwareEvents.py:6-7 | a new registry has no registrations |
| Events.EventRegistry.RegisterEvent | node/middleware/MiddelwareEvents.py:9-14 | never fails, even for an unknown type; the new table is the registered one |
| Events.EventRegistry.EmitEvent | node/middleware/MiddelwareEvents.py:16-19 | invokes the type's handlers in registration order, once per registration, and nothing for a type without registrations |
| ReliableMulticast.RemoveAt | node/middleware/ReliableMulticast.py:121 | removing one entry shortens the list by one, keeps every other entry in order and keeps the multiset minus that entry |
| ReliableMulticast.Scan | node/middleware/ReliableMulticast.py:115-122 | the as-written drain splits the list into a remainder and a delivered run that together are as long as the list and hold only its entries |
| ReliableMulticast.ScanConserves | node/middleware/ReliableMulticast.py:115-122 | the as-written drain loses and invents nothing: the remainder and the delivered run together are the multiset of the list |
| ReliableMulticast.CleanDrain | node/middleware/ReliableMulticast.py:115-122 | the intended drain delivers a run whose k-th message is the sender's number s+k, keeps the multiset of entries, and leaves no entry numbered s+length |
| ReliableMulticast.ScanIsCleanDrain | node/middleware/ReliableMulticast.py:115-122 | with no duplicate (sender, number) in the list, the as-written drain equals the contiguous-run drain |
| ReliableMulticast.DuplicateHeldBackDeliveredTwice | node/middleware/ReliableMulticast.py:115-122 | a message held back twice with another entry between them is delivered twice and the other entry stays |
| ReliableMulticast.InitialLatest | node/middleware/ReliableMulticast.py:86-96 | an unknown sender's counter starts at 1 for first number 1 and at s-1 otherwise |
| ReliableMulticast.FirstContact | node/middleware/ReliableMulticast.py:86-96 | a first message numbered s is in order unless s is 1, and then it counts as a duplicate |
| ReliableMulticast.NackFor | node/middleware/ReliableMulticast.py:101-105 | a NACK goes to the message's origin address and port, carries the requested number and is typed NEGATIVE_ACK |
| ReliableMulticast.RMulticast.constructor | node/middleware/ReliableMulticast.py:15-32 | counter 0, empty tables, empty hold-back list, empty archive |
| ReliableMulticast.RMulticast.Send | node/middleware/ReliableMulticast.py:34-46 | the counter grows by exactly one; the message is stamped with it and the acknowledgement table, archived under that new number with earlier entries unchanged, and multicast |
| ReliableMulticast.RMulticast.GetSequenceNumberForProcess | node/middleware/ReliableMulticast.py:86-96 | a known sender's counter is returned unchanged; an unknown sender's is created by the lazy rule and returned |
| ReliableMulticast.RMulticast.DeliverToApplication | node/middleware/ReliableMulticast.py:80-81 | exactly the message is appended to the delivered log |
| ReliableMulticast.RMulticast.SendNegativeAckForSeq | node/middleware/ReliableMulticast.py:101-105 | exactly one NACK for the number goes to the origin, nothing else changes |
| ReliableMulticast.RMulticast.ReceivedNegAck | node/middleware/ReliableMulticast.py:107-113 | an archived number is re-multicast with its number and the current acknowledgement table; otherwise nothing is sent and nothing changes |
| ReliableMulticast.RMulticast.DeliverItemsFromHoldBack | node/middleware/ReliableMulticast.py:115-122 | the remaining list, the delivered run and the counter are those of the as-written drain; the counter grows by the number delivered |
| ReliableMulticast.RMulticast.Receive | node/middleware/ReliableMulticast.py:48-71 | in order: the counter grows by one plus the drained run, which is delivered before the message, and nothing is sent; duplicate: nothing but the lazy entry; gap: one NACK for R+1 to the origin, the message held back, nothing delivered, and the counter set to seq+3 beyond R+3; no counter ever decreases |
| LeaderElection.OtherLosesIrreflexive | node/middleware/LeaderElection.py:51-58 | a node never considers itself the loser against its own id |
| LeaderElection.TieBreakExactlyOne | node/middleware/LeaderElection.py:51-58 | for two distinct ids exactly one loses against the other |
| LeaderElection.TieBreakTransitive | node/middleware/LeaderElection.py:51-58 | losing is transitive, so the tie-break is a strict total order |
| LeaderElection.ElectionTargets | node/middleware/LeaderElection.py:44-49 | the election targets are exactly the other peers that do not lose against us |
| LeaderElection.LeaderSubsystem.constructor | node/middleware/LeaderElection.py:29-39 | no leader, both flags clear, nothing sent or emitted |
| LeaderElection.LeaderSubsystem.Emit | node/middleware/LeaderElection.py:82 | emitting an event records it and invokes its registered handlers in order |
| LeaderElection.LeaderSubsystem.BroadcastElectionMessage | node/middleware/LeaderElection.py:44-49 | one ELECTION unicast to the address and port of each election target, each exactly once, and no other change |
| LeaderElection.LeaderSubsystem.LeaderElectionMessageReceived | node/middleware/LeaderElection.py:60-66 | from a loser: an ANSWER to its origin address and port, and an election becomes necessary; from a winner: nothing sent, no state change |
| LeaderElection.LeaderSubsystem.LeaderAnswerMessageReceived | node/middleware/LeaderElection.py:68-72 | sets the answer flag and changes nothing else |
| LeaderElection.LeaderSubsystem.LeaderCoordinatorMessageReceived | node/middleware/LeaderElection.py:74-88 | from self or a winner: the sender becomes leader, no election is necessary, and the lost-leadership event fires exactly when we were leader and the sender is another node; from a loser: leader unchanged, election necessary |
| LeaderElection.LeaderSubsystem.StartRound | node/middleware/LeaderElection.py:93-96 | both flags cleared, then one ELECTION unicast to the address and port of each election target, each exactly once, earlier transmissions kept, leader and events unchanged |
| LeaderElection.LeaderSubsystem.EndRound | node/middleware/LeaderElection.py:97-104 | without an ANSWER: COORDINATOR multicast through the reliable multicast under its next number, archived under that number, and SELF_ELECTED_AS_LEADER emitted; with one: nothing; the receive tables and all flags unchanged either way |
| LeaderElection.OwnCoordinatorAccepted | node/middleware/LeaderElection.py:74-85 | the coordinator handler, given the node's own COORDINATOR, makes the node its own leader, clears the necessity flag, and sends and emits nothing, whoever led before |
| LeaderElection.TwoNodesOneAnswers | node/middleware/LeaderElection.py:44-66 | of two distinct nodes exactly one loses; the winner is a target of the loser's ELECTION and not the other way round |
| Facade.McastRoute | node/middleware/Middleware.py:114-129 | each delivered multicast has exactly one target: ELECTION to the election handler, COORDINATOR to the coordinator handler, a multicast ANSWER dropped, a missing type raising, anything else to the application |
| Facade.UcastRoute | node/middleware/Middleware.py:88-102 | each unicast has exactly one target: ANSWER to the answer handler, NEGATIVE_ACK to the reliable multicast, anything else to the application |
| Facade.ApplicationTrafficIsExternal | node/middleware/Middleware.py:88-129 | a message reaches the application exactly when its type tag is not one the middleware handles itself |
| Facade.HeartbeatRoutedExternally | node/middleware/Middleware.py:114-129 | heartbeats are routed to the application on both paths |
| Facade.ElectionUnicastReachesApplication | node/middleware/Middleware.py:88-102 | an ELECTION unicast, with the sender's default entries merged under its type entry, is routed to the application and never to an election handler |
| Facade.ElectionRoundReachesApplications | node/middleware/LeaderElection.py:93-96 | every transmission of `StartRound` is a unicast that the receiver's unicast dispatch hands to its application |
| Facade.HeartbeatBody | node/middleware/Middleware.py:136-144 | the callback's body when it returns, the error body when it raises, the placeholder without a callback |
| Facade.HeartbeatFallbacksDistinct | node/middleware/Middleware.py:136-144 | the error body and the placeholder differ |
| Facade.HeartbeatCounted | node/middleware/Middleware.py:146-147 | a heartbeat, after the sender's default entries are merged in, adds exactly one to the receiving peer's heartbeat count |
| Facade.SupervisorStarts | node/middleware/Middleware.py:157-158 | the supervisor's test on values: no leader id, leader not in the table, leader offline, or an election flagged (related to the object by `ShouldStartElectionMatchesValues`) |
| Facade.SupervisorIdleAfterCoordinator | node/middleware/Middleware.py:155-160 | with a non-empty leader id whose entry was just refreshed and no pending election, the supervisor does not start a round |
| Facade.SupervisorStartsAfterTimeout | node/middleware/Middleware.py:155-160 | once the offline timeout has passed since the leader was last heard, the supervisor starts a round |
| Facade.Middleware.constructor | node/middleware/Middleware.py:20-63 | a new middleware has an empty peer table, fresh collaborators wired to each other, no leader, and accepts any heartbeat rate |
| Facade.Middleware.GetLeader | node/middleware/Middleware.py:76-83 | returns the leader's entry exactly when the leader id is in the peer table, and that id is the one `is_uid_leader` accepts |
| Facade.Middleware.IsUidLeader | node/middleware/Middleware.py:76-77 | `is_uid_leader`: the id equals the election's leader id |
| Facade.Middleware.ShouldStartElection | node/middleware/Middleware.py:157-158 | the supervisor's test on the live objects, with `get_leader` and `is_online` |
| Facade.Middleware.ShouldStartElectionMatchesValues | node/middleware/Middleware.py:155-160 | the supervisor starts a round exactly when the leader id is empty, not in the table, offline, or an election is flagged |
| Facade.Middleware.UpsertPeer | node/middleware/Middleware.py:105-112 | an unknown sender gets a fresh entry built from the header, a known one's entry is refreshed in place, all other entries keep object and state |
| Facade.Middleware.McastReceived | node/middleware/Middleware.py:104-129 | the sender's entry is upserted; then the message goes to exactly one target by type. ELECTION: an ANSWER and the necessity flag exactly when the sender loses. COORDINATOR: the sender becomes leader (`is_uid_leader`), the supervisor is idle at the same instant, and the lost-leadership event fires when we were superseded; from a loser: necessity flag set. Every other type leaves the leader state, transmissions and events unchanged. The application log grows exactly for application types |
| Facade.Middleware.DispatchMcast | node/middleware/Middleware.py:114-129 | the routing half alone, with the same per-target effects on the leader subsystem as `McastReceived` (ANSWER and necessity flag, leader, events, transmissions, answer flag); the peer table is left as it was |
| Facade.Middleware.UcastReceived | node/middleware/Middleware.py:88-102 | exactly one target by type. ANSWER: the answer flag is set. NEGATIVE_ACK: an archived number is re-multicast and re-archived with the current acknowledgement table, otherwise nothing. Anything else: the application log grows. The counter, the receive tables and the hold-back list, the leader, the necessity flag, the election's transmissions and events, and the peer table are unchanged |
| Facade.Middleware.HeartbeatTick | node/middleware/Middleware.py:134-148 | a heartbeat with the chosen body is multicast under the next number with the current acknowledgement table and archived under that number; the receive tables and the hold-back list are unchanged |
| Legacy.DefaultHeader | node/communication.py:299-301 | the default header carries origin, destination and uid over any additional entries |
| Legacy.MulticastHeader | node/communication.py:303-307 | in multicast sends the default entries override the caller's |
| Legacy.UnicastHeader | node/communication.py:313-317 | in unicast sends the caller's entries override the defaults |
| Legacy.PrecedenceOpposite | node/communication.py:299-317 | on a key both carry with different values, the two merges keep opposite values |
| Legacy.MulticastSenderNotSpoofable | node/communication.py:303-307 | a multicast always carries the sender's own uid and address, whatever the caller adds |
| Legacy.UnicastSenderOverridable | node/communication.py:313-317 | a unicast carries the uid the caller puts in, over the sender's own |
| Legacy.LegacyUcastRoute | node/communication.py:154-164 | ANSWER goes to the answer handler, everything else to the application |
| Legacy.UcastRoutesAgree | node/communication.py:154-164 | the two revisions route unicasts alike, except that NEGATIVE_ACK reaches the application in the older one |
| Legacy.HeartbeatMessage | node/communication.py:196-207 | the older heartbeat has the same body choice, type heartbeat and the sender's uid |
| Legacy.LegacyLeaderSubsystem.constructor | node/communication.py:338-347 | not leader, no leader id, all flags clear |
| Legacy.LegacyLeaderSubsystem.ResetLeaderState | node/communication.py:356-361 | clears the leader flag, the leader id, the answer flag, the lost flag and the necessity flag |
| Legacy.LegacyLeaderSubsystem.BroadcastElectionMessage | node/communication.py:352-354 | exactly one ELECTION multicast |
| Legacy.LegacyLeaderSubsystem.LeaderElectionMessageReceived | node/communication.py:370-384 | from our own address: no change; from a loser: an ANSWER by unicast to its address; from a winner: the election is lost and nothing is sent |
| Legacy.LegacyLeaderSubsystem.LeaderAnswerMessageReceived | node/communication.py:387-390 | sets the answer flag only |
| Legacy.LegacyLeaderSubsystem.LeaderCoordinatorMessageReceived | node/communication.py:392-411 | own uid: leader flag set, leader is self, SELF_ELECTED_AS_LEADER emitted; a winner: it becomes leader, leader flag cleared, leader-found callback called once; a loser: leader unchanged, election necessary |
| Legacy.LegacyLeaderSubsystem.StartRound | node/communication.py:416-419 | reset, then one ELECTION multicast |
| Legacy.LegacyLeaderSubsystem.EndRound | node/communication.py:420-430 | COORDINATOR multicast exactly when neither an ANSWER arrived nor an election was lost; the necessity flag ends false |
| Legacy.OldOtherLosesIrreflexive | node/communication.py:364-368 | a node never loses against its own UUID |
| Legacy.OldTieBreakExactlyOne | node/communication.py:364-368 | for two different UUID values exactly one node loses |
| Legacy.OwnCoordinatorMakesLeader | node/communication.py:392-399 | a node receiving its own COORDINATOR becomes leader and emits SELF_ELECTED_AS_LEADER |
| Legacy.OwnElectionIgnored | node/communication.py:370-372 | a node's own ELECTION multicast neither sends an answer nor marks a lost election |
| Scenarios.OutOfOrderDelivery | node/middleware/ReliableMulticast.py:53-68 | receiving 2, 4, 3 from a new sender delivers 2, then 4, then 3, with one NACK for 3 and an empty hold-back list |
| Scenarios.FirstMessageDropped | node/middleware/ReliableMulticast.py:86-96 | a new sender's first message numbered 1 is not delivered and its counter becomes 1 |
| Scenarios.SuccessiveSends | node/middleware/ReliableMulticast.py:34-46 | three sends are numbered 1, 2, 3 and each is archived under its own number |

## Left out

- Sockets, UDP sending and receiving, JSON encoding, group joins and port probing (`IPCommunication.py`, `Utils.py`, the receiver and sender classes of `communication.py`). These are I/O. Transmissions are appended to ghost logs instead.
- Threads, `time.sleep`, the `while True` loops and `time.time()`. Each handler is one atomic step, `now` is a parameter, and the election round is split into `StartRound` and `EndRound`. Concurrent interleavings of the receive, heartbeat and supervisor threads are not modelled.
- Logging (`lg.*`) and the `__str__` methods.
- Configuration.py is not part of this model. Its offline timeout is taken as 3 seconds, as in `node/communication.py:18`.
- Message identity. The source's `hold_back_queue.remove(msg)` removes by object identity. Every received message is a distinct object, so this is the entry at the current index, which is what `RemoveAt` removes.
- Archive stamping. The source's IP sender merges its default header into the archived message object in place. The model archives the message as `send` stamped it.
- ReliableMulticast.RMulticast.Send: the acknowledgement table is attached as a snapshot. The source attaches the live dictionary, which keeps changing afterwards. No code reads the table.
- ReliableMulticast.RMulticast.ReceivedNegAck: a NACK body that is not a number is treated as "not archived". The source would raise on an unhashable body. Every NACK the source sends carries a number.
- ReliableMulticast.ScanIsCleanDrain: the equality is stated under unique (sender, number) keys. The source does not guarantee them, and `DuplicateHeldBackDeliveredTwice` shows what happens without them.
- Facade.McastRoute: a message without a type entry is the `MissingType` target. The source raises `KeyError` there after the peer table was already updated, and the model stops dispatching at that point.
- LeaderElection.LeaderSubsystem.LeaderCoordinatorMessageReceived: when another node supersedes us as leader, the model emits `"LOST_LEADER_STATUS"` and adopts the new leader. As written, the event name lookup raises `AttributeError` first (`LeaderElection.py:82`, `MiddelwareEvents.py:1-4`). The leader id then stays ours, the necessity flag keeps its old value, and the exception ends the multicast receive thread. The model follows the evident intent; the as-written outcome is not modelled.
- LeaderElection.LeaderSubsystem.BroadcastElectionMessage: the peer table's iteration order is not fixed. The model states which peers receive ELECTION, each once, and not the insertion order of the source's dictionary.
- `voting_timeout`, `heartbeat_rate_s` and `leader_control_rate_s` only set sleep durations, so they carry no behaviour in the model.
- The external callbacks (application multicast and unicast handlers, the heartbeat payload provider, the leader-found callback) are opaque. They become ghost logs, a counter, and the `PayloadOutcome` of one call.
- `cb_leader_found` of the current revision has an empty body and is never called by the current election code.
- The older revision's `Peer` (`communication.py:23-51`), `MiddlewareEvents` (`communication.py:64-85`), multicast dispatch and supervisor (`communication.py:166-222`) are modelled once, by `Peers`, `Events` and `Facade`. The code of each is the same as the current revision's, except that the older `Peer` stores no port or readable name.
- `participating_in_election` has no behaviour: its body is `pass` in the current revision and refers to a missing attribute in the older one.
- Leader Election: the mismatched constructor keywords and the misspelt necessity flag of `Middleware.py` are not reproduced. Each would raise an exception as written. Each file is modelled against its own interface, as described above.
