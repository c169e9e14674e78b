# Chat message batching, modelled in Dafny

This project models the core of a two-party chat backend. Messages are stored in
*batches*. A batch is one document that holds up to 100 messages of one conversation,
plus the times of its first and last message. The model covers:

- **Send path** (`server.js`). The `sendMessage` socket handler finds the conversation's
  latest batch, the one with the greatest end time. If there is none, or it already
  holds 100 messages, the handler opens a fresh batch. Otherwise it appends the message
  and moves the batch's end time forward. It then saves the batch. Only after a
  successful save does it emit `{senderId, message, timestamp}` to the conversation's
  room. `joinChat` adds a connection to a room.
- **Read paths** (`controller/chatController.js`).
  - `getMessages` resolves the order-independent conversation identifier (the two user
    ids sorted and joined with `_`). It then flattens that conversation's batches, in
    ascending start time, into one list.
  - `getAllChats` fetches every batch whose identifier starts with `userId_` or ends
    with `_userId`, ignoring case, newest start time first. It groups their messages per
    conversation, in the order each conversation is first met.
- **Schema** (`model/message.js`). `Message` and `Batch` records, the required-field
  validation applied when a batch is saved, and the time defaults.

Modules:

- `Wrappers`: `Option`.
- `Model`: the records and their validation.
- `Text`: JavaScript's default string order and the prefix/suffix tests that ignore case.
- `Store`: the document store as a sequence of batches. A `find` is `Where`,
  `findOne().sort({endTime: -1})` is `Latest`, and `.sort({startTime: ±1})` is
  `SortByStart`, an insertion sort.
- `Controller`: the two read handlers. `getAllChats` is a method with the source's loop
  over a dictionary. It is proved equal to the reference grouping `Groups`, and the
  grouping's properties are proved as lemmas.
- `Server`: the class `ChatServer`, which holds the batch collection and the rooms.
  - `SendMessage` is proved against the pure transition `Placed`, and the batching rules
    are proved about `Placed`.
  - The class invariant says every stored batch passed validation and holds 1 to 100
    messages.
  - A ghost clock records the latest time a handler has read. While readings do not go
    backwards, every stored batch is chronological and ends by that clock (`Ordered`).

Conventions:

- Times are integers, in milliseconds.
- Each operation takes one clock reading, `now`.
- Whether the store is reachable is the parameter `storageOk`.
- Mongoose's `required` validator rejects an empty string. So a save fails when the
  conversation id, the sender or the text is empty, and then nothing is stored or emitted.

The code has no time-based rule for closing a batch, and no unread counts, search or
mark-read. The socket send path applies only the 100-message size rule, and so does the
model.

## Model

| member | source | states |
|---|---|---|
| `Model.Message` | model/message.js:3-7 | the message sub-document: sender, text and timestamp |
| `Model.Batch` | model/message.js:9-14 | the batch document: chat id, its messages in insertion order, start and end time |
| `Model.Entry` | controller/chatController.js:16-20 | the plain `{senderId, message, timestamp}` object handed to clients, also the payload built at server.js:60 |
| `Model.View` | controller/chatController.js:16-20 | the projection of a stored message to that object; characterised by `Model.Entries` |
| `Model.Present` | model/message.js:4-10 | `required: true` on a String path: the value is not empty |
| `Model.ValidMessage` | model/message.js:3-5 | a message validates when its sender and text are present; characterised by `Model.ValidBatchPush` and `Server.SavesExactly` |
| `Model.ValidBatch` | model/message.js:9-11 | a batch validates when its chat id is present and every embedded message validates; characterised by `Model.ValidBatchPush` |
| `Model.NewMessage` | model/message.js:6 | the sub-document `batch.messages.push({senderId, message})` creates, whose timestamp is the `Date.now` default read at the send; used by `Server.PlacedFirstBatch` and `Server.PlacedChronological` |
| `Model.NewBatch` | model/message.js:9-13 | the empty batch of `new Batch({chatId, messages: [], startTime, endTime})` with both times now; characterised by `Server.PlacedFirstBatch` |
| `Model.ValidBatchPush` | model/message.js:3-14 | a batch with one more message pushed passes the schema's required-field validation exactly when the batch did and the new message has a non-empty sender and text |
| `Model.Entries` | controller/chatController.js:16-20 | one output entry per message, each with the sender, text and timestamp of the message at the same position |
| `Store.Where` | controller/chatController.js:12 | a `find` with a filter, in store order; characterised by `Store.WhereSpec` |
| `Store.WhereSpec` | controller/chatController.js:12 | a `find` returns exactly the stored batches that satisfy the filter, each exactly as often as it is stored, and none that fail it |
| `Store.OfChat` | controller/chatController.js:12 | the `find({chatId})` filter, also the one `findOne` applies at server.js:38; characterised by `Store.WhereSpec` |
| `Store.Latest` | server.js:38 | the chosen batch belongs to the conversation and no batch of the conversation has a later end time; there is none exactly when the conversation has no batch |
| `Store.SortByStart` | controller/chatController.js:12 | `.sort({startTime: ±1})`, a stable insertion sort; characterised by `Store.SortByStartSpec` |
| `Store.SortByStartSpec` | controller/chatController.js:12 | the sorted batches are a permutation of the fetched ones and are ordered by start time (ascending or descending) |
| `Store.Flatten` | controller/chatController.js:15-21 | `batches.flatMap(batch => batch.messages)`; characterised by `Store.FlattenAt`, `Store.FlattenLength` and `Store.FlattenSort` |
| `Store.FlattenAt` | controller/chatController.js:15-21 | message `k` of batch `i` sits in the flattened list right after all messages of the batches before `i` |
| `Store.FlattenLength` | controller/chatController.js:15-21 | the flattened list is as long as the sum of the batch sizes |
| `Store.FlattenSort` | controller/chatController.js:12-21 | reordering batches by start time changes no message's multiplicity in the flattened list |
| `Text.Less` | controller/chatController.js:9 | the string order of `sort()`: character by character, a proper prefix first; `Text.LessIrreflexive`, `Text.LessAsymmetric`, `Text.LessTransitive` and `Text.LessTotal` make it a strict total order |
| `Text.LessTransitive` | controller/chatController.js:9 | if `a` sorts before `b` and `b` before `c`, then `a` sorts before `c` |
| `Text.LessTotal` | controller/chatController.js:9 | any two different strings are ordered one way or the other |
| `Controller.ChatId` | controller/chatController.js:9 | `[a, b].sort().join("_")`; characterised by `Controller.ChatIdSymmetric` and `Controller.ChatIdSorted` |
| `Controller.ChatIdSymmetric` | controller/chatController.js:9 | `id(a, b) == id(b, a)` |
| `Controller.ChatIdSorted` | controller/chatController.js:9 | the id is the lexicographically smaller user id, then `_`, then the larger one |
| `Controller.ChatIdInvolvesBoth` | controller/chatController.js:36-41 | the conversation of `a` and `b` is selected by the user-chat filter of each of `a` and `b` |
| `Controller.InvolvesUser` | controller/chatController.js:36-41 | the `$or` of the two patterns `^userId_` and `_userId$`, ignoring case, as literal prefix and suffix tests |
| `Controller.ChatBatches` | controller/chatController.js:12 | `Batch.find({chatId}).sort({startTime: 1})` for the resolved id; characterised by `Controller.ChatBatchesSelected` |
| `Controller.History` | controller/chatController.js:15-21 | the flattened messages of those batches; characterised by `Controller.HistoryComplete` and `Controller.HistoryAt` |
| `Controller.ChatBatchesSelected` | controller/chatController.js:12 | `getMessages` uses exactly the batches stored under the resolved id, each as often as stored, in ascending start time |
| `Controller.HistoryComplete` | controller/chatController.js:12-21 | the history holds every message of the conversation's batches, each exactly as often as stored, and its length is their total |
| `Controller.HistoryAt` | controller/chatController.js:15-21 | the history is batch order, then in-batch order: message `k` of the `i`-th batch is at position (messages of the earlier batches) + `k` |
| `Controller.GetMessages` | controller/chatController.js:4-28 | the response has one entry per history message, carrying that message's sender, text and timestamp |
| `Controller.GetMessagesSymmetric` | controller/chatController.js:9-12 | either order of the two participants gives the same response |
| `Controller.UserBatches` | controller/chatController.js:36-41 | the user-chat `find` sorted by `startTime: -1`; characterised by `Controller.UserBatchesSelected` |
| `Controller.UserBatchesSelected` | controller/chatController.js:36-41 | the user-chat query selects exactly the batches whose id starts with `userId_` or ends with `_userId`, ignoring case, each as often as stored, newest start time first |
| `Controller.ChatGroup` | controller/chatController.js:47-50 | the `{chatId, messages}` entry of the `chats` dictionary |
| `Controller.Groups` | controller/chatController.js:44-56 | the reference grouping: one group per conversation in first-seen order, holding that conversation's messages batch after batch; characterised by `Controller.GroupsOnePerChat` and `Controller.GroupsConserve` |
| `Controller.GroupsOnePerChat` | controller/chatController.js:44-56 | the group ids, in order, are the fetched conversation ids in order of first appearance: distinct, exactly the fetched ids, and those met in any first `p` batches form a prefix of the group list |
| `Controller.GroupsConserve` | controller/chatController.js:45-53 | the groups together hold exactly the fetched batches' messages, with multiplicity, and their sizes sum to the number of those messages |
| `Controller.GetAllChats` | controller/chatController.js:30-64 | the dictionary-building loop returns the reference grouping: each fetched conversation once, in first-seen order, with its batches' messages concatenated in fetch order |
| `Server.BatchSizeLimit` | server.js:41 | the maximum number of messages per batch, 100; bounds every stored batch by `Server.PlacedWellFormed` |
| `Server.OpensBatch` | server.js:41-42 | no batch of the conversation, or the latest holds 100 or more messages |
| `Server.Target` | server.js:42-53 | the batch as saved: a fresh batch or the latest one, with the message pushed and the end time set to now |
| `Server.Placed` | server.js:38-56 | the store after a successful save; characterised by the `Server.Placed…` lemmas below |
| `Server.PlacedFirstBatch` | server.js:42-53 | a conversation with no batch gets exactly one new batch, holding exactly the message the handler builds, with start time = end time = that message's timestamp |
| `Server.PlacedFullBatch` | server.js:41-49 | when the latest batch holds 100 or more messages, a new batch holding only the message, with start time = end time = its timestamp, is added and every existing batch is unchanged |
| `Server.PlacedAppend` | server.js:38-53 | otherwise the message is appended to the latest batch, whose id, start time and earlier messages are kept and whose end time becomes now; no other batch changes |
| `Server.PlacedAppendOnly` | server.js:38-56 | a send never edits or drops stored batches: every old batch is kept as it was, except that the conversation's latest batch may grow by the new message at its end, with its id and start time kept |
| `Server.PlacedAddsMessage` | server.js:42-56 | the store's messages grow by exactly the new one, with multiplicity, and the message count by one |
| `Server.PlacedChatGains` | server.js:38-56 | the conversation sent to gains exactly the new message, with multiplicity |
| `Server.HistoryAfterSend` | server.js:52-56 | after a send to the conversation of `a` and `b`, `getMessages(a, b)` returns every earlier message and the new one, each exactly once more |
| `Server.PlacedOtherChats` | server.js:52-56 | the batches of every other conversation are unchanged |
| `Server.PlacedWellFormed` | server.js:41-52 | no batch ever holds more than 100 messages, and every stored batch stays valid and non-empty |
| `Server.Saves` | server.js:36-64 | `await batch.save()` inside the `try` succeeds: the store answers and the document validates; characterised by `Server.SavesExactly` |
| `Server.SavesExactly` | model/message.js:4-10 | on a valid store, the save passes validation exactly when the conversation id, the sender and the text are all non-empty |
| `Server.PlacedChronological` | model/message.js:12-13 | with one clock that does not run backwards, every batch stays non-empty, its start time is its first message's time, its end time its last message's, and its message times never decrease |
| `Server.PlacedEndsBy` | server.js:42-53 | a send moves only the saved batch's end time, and moves it to now: every old batch keeps its end time unless it is the latest batch of the conversation, which then ends at now, and a fresh batch ends at now; so no batch ends after the latest clock reading |
| `Server.Members` | server.js:61 | the room `io.to(chatId)` addresses: the connections joined to `chatId`, none if the room was never created; characterised by `Server.JoinMembers` and `Server.JoinsMembers` |
| `Server.Join` | server.js:28 | `socket.join(chatId)` on the room table; characterised by `Server.JoinMembers` |
| `Server.Joins` | server.js:27-28 | the room table after a sequence of `socket.join` calls, starting from no rooms |
| `Server.JoinMembers` | server.js:27-28 | one join adds the connection to its room and leaves every other room as it was |
| `Server.JoinsMembers` | server.js:27-28 | a room's members are exactly the connections that joined it |
| `Server.ChatServer.JoinChat` | server.js:27-30 | after `joinChat` the connection is in the room, the join is recorded, other rooms, the store and the clock are unchanged, and the rooms still match the join history |
| `Server.Emission` | server.js:60-61 | `io.to(chatId).emit("receiveMessage", newMessage)`: the room, the connections it reaches, and the payload `{senderId, message, timestamp}`; its recipients are fixed by `Server.ChatServer.SendMessage` |
| `Server.ChatServer.constructor` | server.js:22-24 | the server starts with no batches, no rooms and no joins, and its stored batches are trivially chronological |
| `Server.ChatServer.SendMessage` | server.js:32-65 | the store becomes `Placed(...)` and `{senderId, message, now}` is emitted exactly when the save succeeds, to exactly the connections that joined `chatId`; otherwise nothing is stored and nothing is emitted; validity of the store is kept; when the clock has not run backwards, every stored batch stays chronological and ends by the latest clock reading |

## Left out

- Mongo connection and environment loading (`config/db.js`), the Express route tables, the HTTP server, CORS and `listen`: wiring with no logic of the core.
- Console logging and HTTP response shaping (status codes, JSON error bodies). Only the returned data and the success or failure of a save are modelled.
- The clock: the model reads the time once per operation. The source reads it separately for the new batch's two times, the pushed message's default timestamp, the updated end time and the emitted timestamp, so the real values can differ by a few milliseconds.
- Concurrency: the find-then-save sequence of `sendMessage` is modelled as one atomic step. The race between two concurrent senders and socket.io's asynchronous delivery are not modelled.
- Storage failure is one boolean, `storageOk`, covering both the lookup and the save.
- Absent fields in the socket payload. Fields are strings, and an empty string stands for a missing value in validation. Mongoose drops an `undefined` filter value (`findOne({chatId: undefined})` matches every batch), and that case is not modelled.
- `receiverId` in the socket payload is read but never used by the handler, so the model does not take it.
- socket.io's implicit room named after each socket's own id, and its removal of a disconnected socket from every room: they are library behaviour, not code of the core.
- Regular-expression meaning of user ids: the user-chat filter is a literal prefix or suffix test. User ids that contain regex metacharacters are not modelled.
- Case folding is ASCII only. MongoDB evaluates the `$regex` filter with its own engine (PCRE). With `$options: "i"`, that engine also folds non-ASCII letters, and its `$` also matches before a final newline. Neither behaviour is modelled.
- String order compares characters as Unicode scalar values. JavaScript's default sort compares UTF-16 code units, which differs only for characters outside the Basic Multilingual Plane.
- `getAllChats` tests `chats[chatId]` on a plain object, so an id equal to an inherited property name such as `__proto__` would misbehave. The model's dictionary has no inherited keys.
- Mongo document ids (`_id`) of batches and messages are not modelled, so a stored message and its client-facing entry carry the same three fields.
- `Server.PlacedFullBatch`: assumes the full batch's end time is strictly greater than that of every other batch of the conversation, because tied end times make the store's choice unspecified (`Store.Latest` resolves ties to the earliest stored batch).
- `Server.PlacedAppend`: same strict-latest assumption, for the same reason.
- `Server.ChatServer.SendMessage`: keeps `Ordered` only when `now` is not before the clock. The source accepts any clock reading, so a reading that goes backwards is allowed, and then only validity and the batching rules are promised.
- Global chronological order of `getMessages` across batches is not proved. It depends on the clock never running backwards and on how the store orders batches with equal start times. Within one batch, `Server.PlacedChronological` gives the order.
- Ties on start time in the two sorts are resolved by a stable insertion sort. The store leaves that order unspecified. The properties of which batches are read and which messages come back are stated as sortedness plus permutation, so they hold for any tie order. The positions in `Controller.HistoryAt` and the group order of `Controller.GetAllChats` follow the model's own tie order.
