# Pair-chat server core in Dafny

This project models two parts of a pair-programming chat server.

The first is the **pairing engine** of `SocketWrapper`. It has three pieces of
process-wide state:

- `connectedUsers`: each user's live connections;
- `pairs`: each connected user's partner, or none;
- `unPaired`: the FIFO waiting queue.

The class constructor runs on every new connection. It pairs a user's first
connection with the head of the queue, or queues the user. `disconnect`
unwinds a user's state when the last connection closes. A partner left behind
is re-matched with the queue head, or queued. `sendMessageToAllSockets` fans a
message out to both users of a pair.

The second is the **discussion store**. It keeps one discussion per unordered
pair of user names, under a canonical key produced by `sortUserNames`.

Files:

- `wrappers.dfy`: `Option` and `Result`.
- `chat_types.dfy`: the chat message record.
- `pairing.dfy` (module `Pairing`): the engine as a state machine over values.
  - `State` holds the three collections.
  - `Join`, `Leave` and `Relay` are the constructor, `disconnect` and
    `sendMessageToAllSockets`. Each returns the next state and the socket emits
    (`Event`s) in order.
  - `Inv` is the invariant the engine keeps. Lemmas state what each
    transition does and which invariants it preserves.
- `socket_wrapper.dfy` (module `Sockets`): the class `SocketWrapper`.
  - Its fields are the three collections plus an `outbox` of emits.
  - Its methods follow the TypeScript statement by statement (`shift`,
    `push`, `splice`, `forEach` loops).
  - `Connect`, `Disconnect` and `SendMessageToAllSockets` are proved to
    produce exactly the state and the emits of `Join`, `Leave` and `Relay`.
    `Connect` and `Disconnect` also keep `Valid()`.
  - The helper methods `FirstConnection`, `ForgetUser`, `ReleasePartner` and
    `EmitToAll` are proved against `FirstJoin`, `Forget`, `Release` and
    `Broadcast`. `ShiftQueue` is proved against an explicit description of
    the new queue and the returned head.
- `queries.dfy` (module `Discussion`): `SortUserNames` and the store.
  - The MongoDB collection is a class over a map from the canonical key to
    the stored document.
  - `nextId` stands for the identifiers the database hands out.

A JavaScript `Set` iterates in insertion order. A user's connections are
therefore a sequence without repetitions, and emits to a set happen in that
order.

When a paired user's last connection closes, `disconnect`
(src/websockets/socketWrapper.ts:113-123) re-matches the orphaned partner with
the head of the queue at once, or queues the partner when the queue is empty.
The model does the same.

## Model

| member | source | states |
|---|---|---|
| Pairing.Broadcast | src/websockets/socketWrapper.ts:36 | A `forEach` emit over a connection set: one event per connection, addressed in the set's order, each carrying the same payload. The other `forEach` emits (lines 84, 87, 112, 121, 122) use it too. |
| Pairing.InvStatuses | src/websockets/socketWrapper.ts:7-9 | `State` holds the three static collections, and `Inv` is the invariant they keep. Under `Inv`, a user is connected exactly when it has a standing. A user waits exactly when it is queued. A paired user's partner is another connected user paired back with it. |
| Pairing.EmptyValid | src/websockets/socketWrapper.ts:7-9 | The initial state (no users, no pairs, an empty queue) satisfies the invariant. |
| Pairing.Without | src/websockets/socketWrapper.ts:100 | Deleting a connection from a set removes exactly that element. The set stays duplicate-free and shrinks by one when the element was present. It is unchanged when the element was absent. That the remaining elements keep their order is `SpliceIsWithout`. |
| Pairing.IndexOf | src/websockets/socketWrapper.ts:104 | `indexOf` returns -1 exactly when the value is absent. Otherwise it returns the first position holding the value. |
| Pairing.SpliceIsWithout | src/websockets/socketWrapper.ts:104-107 | In a duplicate-free queue, `splice(indexOf(x), 1)` removes `x` and keeps the other users in their order. |
| Pairing.Join | src/websockets/socketWrapper.ts:16-39 | The constructor as a transition. Afterwards the connected users are the earlier ones plus the joining user, and the new connection belongs to that user. |
| Pairing.FirstJoin | src/websockets/socketWrapper.ts:26-38 | A first connection adds the user to the connected users. The user is left waiting exactly when the queue was empty. Something is emitted exactly when the queue was non-empty. |
| Pairing.AddConnKeepsInv | src/websockets/socketWrapper.ts:17-19 | Adding a fresh connection to a present user's set keeps the invariant. |
| Pairing.QueueUserKeepsInv | src/websockets/socketWrapper.ts:26-31 | A first connection that finds the queue empty, and is queued with no partner, keeps the invariant. |
| Pairing.PairWithHeadKeepsInv | src/websockets/socketWrapper.ts:26-34 | A first connection that pairs with the queue head keeps the invariant. The pairing is symmetric and the head leaves the queue. |
| Pairing.JoinPreservesInv | src/websockets/socketWrapper.ts:16-39 | The constructor keeps the invariant for a non-empty name and a fresh connection. The invariant: symmetric pairs, no partner iff queued, no duplicates in the queue, the same keys in `pairs` and `connectedUsers`, non-empty and disjoint connection sets. |
| Pairing.JoinAgain | src/websockets/socketWrapper.ts:17-25 | A later connection of a present user only joins that user's set. `pairs` and the queue are unchanged. Exactly one `foundPair(partner)` goes to the new connection if the user is paired, and nothing otherwise. |
| Pairing.JoinQueueEmpty | src/websockets/socketWrapper.ts:26-31 | A first connection that finds the queue empty leaves the user waiting at the queue tail. `connectedUsers` gains exactly the user's entry, holding the new connection alone. Nothing is emitted. |
| Pairing.JoinQueueNonEmpty | src/websockets/socketWrapper.ts:28-37 | A first connection that finds the queue non-empty pops the earliest queued user. The two are paired with each other. `connectedUsers` gains exactly the user's entry, so the partner's connections are unchanged. Every partner connection gets `foundPair(user)`, then the new connection gets `foundPair(partner)`. |
| Pairing.JoinLeavesOthers | src/websockets/socketWrapper.ts:16-39 | A join changes the status and connections of nobody except the joining user and the partner it takes. |
| Pairing.PairWithHeadNotifiesTruthfully | src/websockets/socketWrapper.ts:35-37 | When a first connection pairs with the queue head, each `foundPair` goes to a live connection and names that user's new partner. |
| Pairing.JoinNotifiesTruthfully | src/websockets/socketWrapper.ts:16-39 | Every `foundPair` emitted by the constructor goes to a live connection. It names the partner that connection's user has in the resulting state. |
| Pairing.Leave | src/websockets/socketWrapper.ts:98-127 | `disconnect` as a transition. No user is added. The user stays connected exactly when it had more than one connection. |
| Pairing.LeaveCases | src/websockets/socketWrapper.ts:98-103 | A non-last connection closing removes only that connection and emits nothing. The last one closing is `Forget` of the user. |
| Pairing.Forget | src/websockets/socketWrapper.ts:104-126 | After the last connection, the user's `connectedUsers` and `pairs` entries are gone and every other user keeps its connections. A waiting user's departure emits nothing. |
| Pairing.Release | src/websockets/socketWrapper.ts:109-123 | The partner's connections are told `pairDisconnected` before any other emit. The partner is left waiting exactly when the queue was empty. |
| Pairing.InvCanRelease | src/websockets/socketWrapper.ts:108-120 | Under the invariant, a connected user not in the queue has a connected partner other than itself. A non-empty queue has a connected head other than the user. |
| Pairing.RemoveConnKeepsInv | src/websockets/socketWrapper.ts:99-103 | Removing a connection that is not the user's last keeps the invariant. |
| Pairing.DropWaitingKeepsInv | src/websockets/socketWrapper.ts:104-107 | Removing a waiting user from the queue, `pairs` and `connectedUsers` keeps the invariant. |
| Pairing.DropPairedRequeueKeepsInv | src/websockets/socketWrapper.ts:109-126 | Removing a paired user keeps the invariant when the queue is empty and the partner is queued. |
| Pairing.DropPairedRematchKeepsInv | src/websockets/socketWrapper.ts:109-126 | Removing a paired user keeps the invariant when the partner is re-paired with the queue head. |
| Pairing.ForgetPreservesInv | src/websockets/socketWrapper.ts:104-126 | Unwinding a user whose last connection has gone keeps the invariant. |
| Pairing.LeavePreservesInv | src/websockets/socketWrapper.ts:98-127 | `disconnect` of any connection of a present user keeps the invariant. |
| Pairing.LeaveNotLast | src/websockets/socketWrapper.ts:99-103 | Closing a connection that is not the user's last removes only that connection. Nothing is emitted and `pairs` and the queue are untouched. |
| Pairing.LeaveWaiting | src/websockets/socketWrapper.ts:104-107 | The last connection of a waiting user closing removes that user from the queue, keeping the others in order. The user's `pairs` and `connectedUsers` entries also go (lines 125-126). Nothing is emitted. |
| Pairing.LeavePaired | src/websockets/socketWrapper.ts:109-126 | The last connection of a paired user closing works in this order. Every partner connection first gets `pairDisconnected`. The partner is then paired symmetrically with the queue head, with `foundPair` to the head's connections and then to the partner's. If the queue is empty, the partner is queued instead. The leaving user becomes absent, and `connectedUsers` loses exactly that user's entry. |
| Pairing.LeaveLeavesOthers | src/websockets/socketWrapper.ts:98-127 | A disconnection changes the status and connections of nobody except the leaving user and its partner. The queue head is touched too, but only when a paired user's last connection closes. |
| Pairing.LeaveNotifiesTruthfully | src/websockets/socketWrapper.ts:109-123 | Every `foundPair` emitted by `disconnect` goes to a live connection and names that user's partner in the resulting state. |
| Pairing.Relay | src/websockets/socketWrapper.ts:82-88 | `sendMessageToAllSockets` as a transition. The sender's own connections are served first, in set order, whether or not a partner exists. |
| Pairing.RelayReachesPair | src/websockets/socketWrapper.ts:82-88 | Every emit carries the message, and no connection gets it twice. A paired sender reaches exactly its own and its partner's connections. An unpaired sender reaches only its own connections, and the call ends in the `PartnerMissing` failure. |
| Pairing.ScenarioFirstJoin | src/websockets/socketWrapper.ts:26-31 | On an empty server, user `a` opening connection 1 is queued and nothing is emitted. |
| Pairing.ScenarioSecondJoin | src/websockets/socketWrapper.ts:32-37 | User `b` opening connection 2 is paired with the waiting `a`. `a`'s connection is told first. |
| Pairing.ScenarioLeave | src/websockets/socketWrapper.ts:109-126 | `a` closing its only connection tells `b`, who waits again in the then-empty queue. |
| Pairing.TwoUsersMeetAndPart | src/websockets/socketWrapper.ts:16-127 | The three steps above as one run. It states the statuses, the queue and the emits after each step. |
| Sockets.SocketWrapper.constructor | src/websockets/socketWrapper.ts:7-9 | The static collections start empty and valid, with an empty outbox. |
| Sockets.SocketWrapper.ShiftQueue | src/websockets/socketWrapper.ts:12-14 | `shiftQueue` removes and returns the queue head, or returns none on an empty queue. |
| Sockets.SocketWrapper.EmitToAll | src/websockets/socketWrapper.ts:36 | A `forEach` emit appends one event per connection, in set order. |
| Sockets.SocketWrapper.Connect | src/websockets/socketWrapper.ts:16-39 | The constructor keeps `Valid()`. Its new state and appended emits are exactly those of `Join`. |
| Sockets.SocketWrapper.FirstConnection | src/websockets/socketWrapper.ts:26-38 | The first-connection branch produces exactly the state and emits of `FirstJoin`. |
| Sockets.SocketWrapper.Disconnect | src/websockets/socketWrapper.ts:98-127 | `disconnect` keeps `Valid()`. Its new state and appended emits are exactly those of `Leave`. |
| Sockets.SocketWrapper.ForgetUser | src/websockets/socketWrapper.ts:104-126 | Unwinding after the last connection produces exactly the state and emits of `Forget`. |
| Sockets.SocketWrapper.ReleasePartner | src/websockets/socketWrapper.ts:109-123 | Releasing the partner produces exactly the `pairs`, queue and emits of `Release`. |
| Sockets.SocketWrapper.SendMessageToAllSockets | src/websockets/socketWrapper.ts:82-88 | It changes only the outbox. The outcome and the appended emits are those of `Relay`. |
| Discussion.LexLess | src/db/queries.ts:8 | The string order of a comparator-less `sort`. It compares the first differing characters, and a proper prefix comes first. No string precedes itself. |
| Discussion.LexLessTransitive | src/db/queries.ts:8 | The order is transitive. |
| Discussion.LexLessAsymmetric | src/db/queries.ts:8 | The string order used by `sort` is asymmetric. |
| Discussion.LexLessTrichotomous | src/db/queries.ts:8 | Two strings neither of which precedes the other are equal, so the order is total. |
| Discussion.SortUserNames | src/db/queries.ts:6-10 | The result is a permutation of the two names, in non-decreasing order. |
| Discussion.SortUserNamesOrderIndependent | src/db/queries.ts:6-10 | Swapping the two names gives the same key. |
| Discussion.SortUserNamesUnique | src/db/queries.ts:6-10 | The key is the only ordered arrangement of the two names. |
| Discussion.DiscussionCollection.constructor | src/db/queries.ts:20 | Stands for the `db: Collection<DiscussionSchema>` each operation receives. The model starts it empty and valid, though every operation needs only validity, not an empty store. Valid means every document sits under its own sorted pair of names, with distinct identifiers handed out earlier. |
| Discussion.DiscussionCollection.GetDiscussion | src/db/queries.ts:43-54 | It fails with "Failed to retrieve discussion" exactly when no discussion is stored under the canonical key. Otherwise it returns the stored document, whose names are the canonical key. Being a function, it cannot change the store. |
| Discussion.DiscussionCollection.CreateIfMissing | src/db/queries.ts:19-35 | If a discussion exists under the key, it is returned and nothing changes. Otherwise exactly one document is inserted under the key, with no messages and a fresh identifier, and returned. In both cases it is what `GetDiscussion` then returns, and the store stays valid. |
| Discussion.DiscussionCollection.AddMessage | src/db/queries.ts:63-78 | The message is appended at the end of the key's list. Every other discussion, and the earlier messages, are untouched. Nothing changes when the key is absent (no upsert). |
| Discussion.GetDiscussionOrderIndependent | src/db/queries.ts:46 | The lookup gives the same answer whichever order the names come in. |
| Discussion.CreateTwice | src/db/queries.ts:19-35 | A second `createIfMissing`, even with the names swapped, returns the first call's discussion. The store gains at most the one entry for the pair. |

## Left out

- The socket.io transport (`socket.on` registration in `initSockets`, lines 41-80, and the `emit` wrappers, lines 90-96 and 129-131). Each emit is an `Event` appended to the outbox.
- HTML sanitisation (`sanitizeHtml` and its options) and `new Date()` time stamps: a foreign library and a clock. Message content and time stamp are opaque inputs.
- Empty user names. `shiftQueue` uses `shift() || null`, and `disconnect` tests `!firstInQueue`, so a queued empty name would count as "no one". Connections require a non-empty name, and the invariant keeps `""` out of the state.
- Sockets.SocketWrapper.Disconnect: requires a connection the user actually holds, as the socket layer guarantees. A repeated `disconnect` of the same socket is not modelled.
- Sockets.SocketWrapper.SendMessageToAllSockets: the `TypeError` thrown by `connectedUsers.get(null).forEach` is the `PartnerMissing` outcome. The emits made before it are kept, and the exception's propagation is not modelled.
- Object identity of `SocketWrapper` instances: a connection is a natural-number identifier, and a new connection's identifier is assumed fresh.
- Discussion.LexLess: characters are compared as Dafny `char` values. JavaScript's `sort` compares UTF-16 code units, which can order characters outside the Basic Multilingual Plane differently.
- The MongoDB driver, `async`/`await`, and `src/db/connect.ts` (connection URI, index creation). Concurrent `createIfMissing` calls that could insert two documents for one pair are not modelled, since the store is a map with one document per key.
- Discussion.DiscussionCollection.CreateIfMissing: the re-read after insertion, which throws "Failed to create discussion" (line 31), cannot fail in a map and is not modelled.
- The document identifier is a number handed out in order, not a MongoDB `ObjectId`.
- The identity service (`src/jupyterHub`), the account and logging routes (`src/routes/users.ts`) and the server bootstrap (`src/index.ts`) are not part of this model.
