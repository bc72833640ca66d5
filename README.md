# whats-note client store, in Dafny

This project models the client-side local store of whats-note, an offline-first note and message app. The browser keeps its own copy of the user's data so the app works offline. That copy has two parts:

- **An IndexedDB database** (`frontend/src/lib/idb.js`) with three object stores:
  - `messages`: the message view, built by replaying chat events;
  - `notes`: one record per note, with its sync flags;
  - the pending store: events sent locally that the server has not yet acknowledged.
- **A store facade** (`frontend/src/lib/store.js`, `createClientStore`) with:
  - the tag and tab lists, cached in memory and persisted in localStorage;
  - the `lastSync` watermark in localStorage;
  - wrappers that queue, apply, list and acknowledge events.

Modules:

- `Ordering`: strict total orders, and `SortSet`, which lists a finite set in ascending order.
- `Keys`: IndexedDB keys. Every number comes before every string, and strings compare lexicographically. The index order is `(sentAt, primary key)`.
- `JsValues`: JavaScript values as records hold them. A record (a plain object) is a `map<string, Value>`, and a missing property reads as `undefined`. So `{...a, ...b}` is the map union `a + b`.
- `JsNumbers`: `parseInt` with no radix, and the decimal text `String(n)` of an integer.
- `MessageLog`: what `applyChatEvents` does to the `messages` store, as functions. This is the reducer `Step` and the replay `Replay`, with their lemmas.
- `Idb`: the `ClientDb` class. Its fields are the three object stores, and its methods are the operations of `idb.js`. Each method is proved against the `MessageLog` functions or against the index order.
- `Store`: the `ClientStore` class. Its fields are localStorage, the tag and tab caches, and the database.

Each object store's type says that every record sits under its own `id`, the store's keyPath. A put whose record has no valid `id` throws, as IndexedDB's put does. In `applyChatEvents`, such a throw ends the loop, and the events before it stay applied. `Replay` reports the position of the event that threw.

How `applyChatEvents` behaves, modelled as written:

- The `Event` interface declared in `openDB` (frontend/src/lib/idb.js:7-13) names `itemId` and `emittedAt`. `applyChatEvents` instead keys messages by the event's `id` and reads the event's `sentAt`. The model does the same.
- An `editMsg`, `checkMsg` or `uncheckMsg` on a message that is not stored is not skipped. `{...undefined, ...patch}` has no `id` unless the patch supplies one, so the put throws and the rest of the batch stops (`MessageLog.CheckMsgSetsChecked`).
- `applyChatEvents` ignores `editNote`, like every type its switch does not name.
- The event's `data` is parsed by `JSON.parse`. A missing or empty `data` makes `editMsg` throw. A `null` one (the value or the text "null") parses to `null`, which spreads as no properties, so `editMsg` puts the stored message back unchanged (`MessageLog.EditMsgNullPayloadKeeps`). `postMsg` throws on both, reading `text` of `null`.

Quirks of the other operations, modelled as written:

- `syncEventsInClientDb` never writes the watermark. Only `finishSync` and `getLastSync`'s reset write it.
- `selectUnsyncedEvents` builds events for unsynced notes, then discards the result of `concat`. It returns only the pending events, in key order.
- The schema creates the pending store as `unsyncedEvents`, but the operations use `unsyncedChatEvents`. The model has one pending store.
- `store.js` imports `applyEvents`, `insertUnsyncedEvent` and `deleteUnsyncedEvent`, which `idb.js` does not export. The model maps them as follows:
  - `applyEvents` to `applyChatEvents`;
  - `insertUnsyncedEvent` to `insertUnsyncedChatEvent`;
  - `deleteUnsyncedEvent` to the pending store's delete by id.
- Records whose `sentAt` is not a valid key (for example `undefined`) are not in the `sentAt` index, so `selectMessages` never returns them.

`Date.now()` becomes a `now` parameter of each operation that reads the clock.

## Model

| member | source | states |
|---|---|---|
| MessageLog.Put | frontend/src/lib/idb.js:108-114 | A put succeeds exactly when the record's `id` is a valid key. The record is then stored under that key and every other key is unchanged. |
| MessageLog.Merge | frontend/src/lib/idb.js:97-101 | `updateMessage` succeeds exactly when the merged record's `id` is a valid key. When the patch names `id`, only the patch's value decides, even if the target is stored. Otherwise it succeeds exactly when the target is stored. The merged record has the patch's properties plus the old record's. Patch values win, and other properties keep their old values. Every other record is unchanged. |
| MessageLog.Replay | frontend/src/lib/idb.js:103-130 | The replay either completes or names an event position inside the list. If the first event throws, the store is unchanged. |
| MessageLog.PostMsgPuts | frontend/src/lib/idb.js:105-115 | `postMsg` with an object payload stores exactly `{id, sentAt, text, tag, checked}` under the event id, replacing any earlier message. All other messages are unchanged. With a missing or `null` payload it throws. |
| MessageLog.EditMsgMerges | frontend/src/lib/idb.js:116-118 | `editMsg` on a stored message overwrites exactly the properties its object payload names and keeps the rest. Every other message is unchanged. Payloads that move the record to another `id` are excluded here; `Merge` covers them. |
| MessageLog.EditMsgNullPayloadKeeps | frontend/src/lib/idb.js:105-118 | `editMsg` with a `null` payload succeeds exactly when the message is stored, and then leaves the store unchanged. |
| MessageLog.CheckMsgSetsChecked | frontend/src/lib/idb.js:119-124 | `checkMsg` or `uncheckMsg` succeeds exactly when the message is stored. It sets `checked` to true or false and keeps every other property and every other message. |
| MessageLog.DeleteMsgRemoves | frontend/src/lib/idb.js:125-127 | `deleteMsg` removes exactly the message with the event's id. An absent id leaves the store unchanged. |
| MessageLog.OtherTypesIgnored | frontend/src/lib/idb.js:106-128 | `editNote` and unrecognised types leave the messages unchanged. |
| MessageLog.ReplayAppend | frontend/src/lib/idb.js:103-130 | Replaying `a + b` replays `a`, then, unless `a` threw, replays `b` on the result. |
| MessageLog.ReplayStopsAtFailure | frontend/src/lib/idb.js:103-130 | When the replay stops at event `i`, the store is what events `0..i-1` made of it, and event `i` throws on that store. |
| MessageLog.StepIdempotent | frontend/src/lib/idb.js:104-128 | Applying an event to the store it produced changes nothing. |
| MessageLog.MergeIdempotent | frontend/src/lib/idb.js:97-101 | Spreading the same patch twice gives the same store as once. |
| MessageLog.ReplayTwice | frontend/src/lib/idb.js:103-130 | Replaying `[e, e]` leaves the same messages as replaying `[e]`. |
| MessageLog.PostThenDeleteRemoves | frontend/src/lib/idb.js:107-127 | A message posted and then deleted is absent, and the replay does not throw. |
| MessageLog.PostThenCheckIsChecked | frontend/src/lib/idb.js:107-121 | A message posted and then checked is stored with `checked` true. |
| Idb.SentAtOrder | frontend/src/lib/idb.js:84-87 | Lists the `sentAt` index exactly: each entry once, strictly ascending by `(sentAt, key)`. |
| Idb.PendingOrder | frontend/src/lib/idb.js:64 | Lists the pending store's keys exactly: each key once, strictly ascending. |
| Idb.NewestOfIndex | frontend/src/lib/idb.js:81-95 | The records of a suffix of the index order are stored, are indexed and are ascending. Every other indexed record has a smaller entry than each of them. |
| Idb.SelectedNewest | frontend/src/lib/idb.js:81-95 | The records of the last `min(count, n)` index keys are exactly `min(count, number indexed)` records, and they are the newest indexed records in ascending order. |
| Idb.ListedInKeyOrder | frontend/src/lib/idb.js:64 | Listing the pending store by its ordered keys gives each pending event once and nothing else, in ascending id order. |
| Idb.ClientDb.PutMessage | frontend/src/lib/idb.js:100 | The `messages` store becomes `Put` of the record, or stays unchanged when the put throws. The other stores are unchanged. |
| Idb.ClientDb.UpdateMessage | frontend/src/lib/idb.js:97-101 | The `messages` store becomes `Merge` of the patch, or stays unchanged when the put throws. |
| Idb.ClientDb.ApplyEvent | frontend/src/lib/idb.js:105-128 | One loop iteration: the `messages` store becomes `Step` of the event, and `ok` says whether it threw. |
| Idb.ClientDb.ApplyChatEvents | frontend/src/lib/idb.js:103-130 | The `messages` store becomes the replay of the events, and the throwing position is reported. Notes and pending events are unchanged. |
| Idb.ClientDb.WalkBackwards | frontend/src/lib/idb.js:89-92 | The backward cursor walk with `unshift` yields the records of the last `min(count, n)` keys, in key-list order. |
| Idb.ClientDb.SelectMessages | frontend/src/lib/idb.js:81-95 | Returns `min(count, number indexed)` messages (none when `count <= 0`). Each is stored and indexed, and they are strictly ascending by `(sentAt, key)`. Every indexed message not returned is older than all returned ones. Nothing is written. |
| Idb.ClientDb.SelectNote | frontend/src/lib/idb.js:132-141 | Returns the stored note, or a blank note `{id, text: "", lastEdit: now, unsynced: 0}` that is not written. |
| Idb.ClientDb.StartUpdateNote | frontend/src/lib/idb.js:147-155 | Writes the note with the new text, `lastEdit = now`, `isSyncing = 1` and `unsynced = 1`, keeping `lastSync`. No other note changes. |
| Idb.ClientDb.FinishUpdateNote | frontend/src/lib/idb.js:157-164 | Writes the note with `isSyncing = 0` and `unsynced` 1 on error, 0 otherwise. `lastSync` is kept on error and becomes `now` otherwise. Text and `lastEdit` are untouched. |
| Idb.ClientDb.SelectUnsyncedEvents | frontend/src/lib/idb.js:63-75 | Returns each pending event exactly once, in ascending id order, and nothing else (no note-derived events). |
| Idb.ClientDb.InsertUnsyncedChatEvent | frontend/src/lib/idb.js:77-79 | The pending store gains the event under its id, replacing any event with that id. Nothing else changes. |
| Idb.ClientDb.DeleteUnsyncedEvent | frontend/src/lib/store.js:95 | The pending store loses exactly the given id. Nothing else changes. |
| Store.ClientStore.constructor | frontend/src/lib/store.js:21-25 | A new store starts with nothing cached over the given localStorage and database. |
| Store.ClientStore.GetTags | frontend/src/lib/store.js:35-45 | Returns the cached tags without touching storage. On the first call it returns the stored tags, or writes and returns the default tags when none are stored. |
| Store.ClientStore.SetTags | frontend/src/lib/store.js:46-49 | Both the `tags` storage entry and the cache hold the new tags. |
| Store.ClientStore.GetTabs | frontend/src/lib/store.js:50-60 | Returns the cached tabs without touching storage. On the first call it returns the stored tabs, or writes and returns the default tabs when none are stored. |
| Store.ClientStore.SetTabs | frontend/src/lib/store.js:61-64 | Both the `tabs` storage entry and the cache hold the new tabs. |
| Store.SettingsSurviveReload | frontend/src/lib/store.js:35-64 | After `setTags(t)` and `setTabs(b)`, the getters return `t` and `b`, in the same session and in a fresh store over the same localStorage. |
| Store.ClientStore.GetLastSync | frontend/src/lib/store.js:65-72 | Returns the stored watermark when it parses to a non-zero integer. Otherwise (missing, NaN or 0) it writes `"0"` and returns 0. |
| Store.ClientStore.FinishSync | frontend/src/lib/store.js:73-78 | Stores the decimal text of the timestamp when it is truthy, of `now` otherwise. |
| Store.FinishSyncThenRead | frontend/src/lib/store.js:65-78 | After `finishSync(t)`, the watermark read back is `t` when `t` is truthy, otherwise `now` (none when `now` is 0). |
| Store.ResetWatermarkReadsZero | frontend/src/lib/store.js:65-72 | The `"0"` that `getLastSync` writes reads back as no watermark. |
| JsNumbers.ParseIntOfIntToString | frontend/src/lib/store.js:66-76 | `parseInt(String(n)) == n` for every integer `n`, so a watermark survives localStorage. |
| Store.ClientStore.GetUnsyncedEvents | frontend/src/lib/store.js:79 | Every pending event once, in ascending id order. |
| Store.ClientStore.SyncEventsInClientDb | frontend/src/lib/store.js:80-87 | The messages become the replay of the events. An empty list changes nothing. Notes and pending events are unchanged. |
| Store.ClientStore.SendEvent | frontend/src/lib/store.js:88-92 | The pending store gains the event under its id, replacing any same-id event. The messages become the replay of `[e]`. |
| Store.ClientStore.FinishSendingEvents | frontend/src/lib/store.js:93-99 | The pending store loses exactly the ids of the acknowledged events. The other pending events and the messages are unchanged. |
| Store.SendThenAcknowledge | frontend/src/lib/store.js:88-99 | A sent event is listed as pending. After it is acknowledged, the pending list is the earlier one without that id. |
| Store.ClientStore.GetLastMessages | frontend/src/lib/store.js:100-102 | The newest `count` indexed messages, oldest first, as `selectMessages`. |
| Store.ClientStore.GetNote | frontend/src/lib/store.js:103-105 | The stored note, or the blank note dated `now`. |

## Left out

- JSON: `JSON.parse` of event payloads and of the stored tags and tabs, and `JSON.stringify` when writing them. Payloads arrive parsed: missing or empty text, `null`, or an object's properties. localStorage items hold decoded lists. A payload that is not valid JSON, or that parses to a number, a string or an array, is not modelled.
- localStorage beyond the store's own three items: only `tags`, `tabs` and `lastSync` are modelled, and each is assumed to hold what the store itself writes there (a list, a list, text).
- The IndexedDB schema and upgrade, transactions, cursors and asynchrony: stores are maps, operations run one at a time, and `selectMessages`' cursor is a walk over the index order.
- The `isSyncing` index of the pending store, which nothing reads.
- Idb.ClientDb.SelectUnsyncedEvents: its read of the `unsynced` index on `notes`, which the schema never creates, cannot throw in the model. The note events built from it are discarded by the code, so they do not reach the result either way.
- `window.dispatchEvent` notifications (`messages-updated`, `note-updated`, `unsynced-event-pushed`), which only wake listeners.
- `getDB` memoisation and `openDB`: one database object is given to the store.
- `Date.now()`: `finishUpdateNote` reads the clock twice (once in `selectNote`, once for `lastSync`), and the model uses one `now` for both.
- `selectNotes`, which is not part of this model.
- The unused `filter` argument of `getLastMessages`.
- The server side, whose event, sync and listen handlers are empty.
- JsNumbers.ParseInt: numbers are mathematical integers. Double rounding above 2^53, fractions, exponent form and `Infinity` are not modelled, and NaN is `None`.
- Keys.StrLess: IndexedDB compares strings by UTF-16 code units. The model compares Dafny characters (Unicode scalar values), which differs only for characters outside the Basic Multilingual Plane.
- Keys.KeyLess: only number and string keys are modelled. Dates, binary keys and arrays never occur as ids or `sentAt` here.
