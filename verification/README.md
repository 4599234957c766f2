# rastrearja_push — a Dafny model of the push-notification backend

The backend has three HTTP endpoints. They keep a Firestore collection `token-usuarios`. It holds one document per user, keyed by e-mail. Each document has an array `fcmTokens`, with one entry per browser or device, and an array `deviceIds` of the tracker devices the user follows.

- `/api/notifications`:
  - GET checks whether a user holds a token.
  - POST registers a token, or unregisters one when `action` is `"unregister"`.
  - DELETE unregisters a token.
- `/api/update-user-devices` merges tracker device ids into a user's document.
- `/api/traccar-event` handles a tracker event:
  - It validates the event and resolves the users to notify: the document named by the `email` hint, or every document whose `deviceIds` holds the device.
  - It renders a Portuguese notification from the event-type table.
  - It sends one message per token. After each send it writes the token array back: a `lastUsed`/`lastEvent` stamp after a delivery, or the array without the token after a "not registered" failure.

The model is pure. The collection is a `map<string, UserRecord>` (`Documents.Store`). A handler returns its HTTP answer together with the store writes that took effect (`Documents.Write`); a write that throws is not in the list. `Documents.ApplyAll` gives the store afterwards. Every route keeps each document to at most one entry per device (`Documents.DevicesUnique`): see `Registry.HandleKeepsUnique`, `DeviceLink.LinkKeepsUnique` and `Dispatch.HandleEventKeepsUnique`.

Three Firestore operations are modelled:
- `update` replaces the named fields of an existing document.
- `set` without merge creates a document.
- `set` with `merge` and `arrayUnion` unites the ids into a set.

The messaging provider and store failures are parameters:
- `fault: bool` says whether the store throws inside a handler's `try`.
- `Dispatch.Provider` maps (user key, token position) to what the send does and whether the write that follows it succeeds.

Modules, in dependency order:
- `Values` — `Option`, and JavaScript truthiness of an optional string.
- `Seqs` — the `Array.prototype.filter` model and subsequences.
- `Text` — `trim()`, ASCII `toLowerCase()`, the quote-stripping regexes, and the two e-mail normalisations.
- `Documents` — the stored records, the writes and their effect.
- `Http` — responses.
- `Registry` — `/api/notifications`.
- `DeviceLink` — `/api/update-user-devices`.
- `Content` — the event-type table.
- `Dispatch` — `/api/traccar-event`.

### Behaviours of the code worth knowing

- Re-registering a device drops its old entry and appends a fresh one.
  - `createdAt` is stamped again with the new clock reading; the old value is not kept (`Registry.ReRegisterRestamps`).
  - Repeating a registration at the same clock reading leaves the store unchanged (`Registry.RegisterTwice`).
- Unregistering removes entries by token only; the device id plays no part.
  - The handler looks the document up under the e-mail exactly as sent, not under the normalised key that registration used. `Registry.UnnormalisedUnregisterMisses` shows the consequence.
  - GET and the `email` hint of the event endpoint use the same raw lookup.
- Registration strips only `"` from the e-mail; device linking strips `"` and `'`. An address with an apostrophe therefore lands in two different documents (`Text.KeysDivergeOnApostrophe`).
- Each token is sent on its own; there is no batch call.
  - Only `messaging/registration-token-not-registered` prunes a token.
  - There is no counter of removed tokens.
- Every write of the event loop is computed from the array read before the loop, so each write replaces the array with an edit of that snapshot.
  - Two dead tokens of one user are both pruned from the snapshot, so the second prune puts the first dead token back (`Dispatch.SecondPruneRestoresFirst`).
  - If the store accepts the stamp write, a prune is likewise undone by a later stamp for another token of the same user (`Dispatch.PruneUndoneByLaterSend`).
  - A stamp write that throws after a delivery counts the token as both sent and failed.
  - A prune write that throws escapes the loop and makes the response 500 (`Dispatch.Deliver`).

## Model

| member | source | states |
|---|---|---|
| Seqs.Filter | src/pages/api/notifications.ts:78 | the kept elements are exactly those that pass the test, each with its original multiplicity, in their original order |
| Seqs.FilterIdempotent | src/pages/api/notifications.ts:110 | filtering twice with the same test is filtering once |
| Seqs.FilterAppend | src/pages/api/notifications.ts:78-81 | filtering a concatenation filters each part |
| Seqs.FilterNoDuplicates | src/pages/api/traccar-event.ts:47-50 | a filtered list without duplicates stays without duplicates |
| Text.Trim | src/pages/api/notifications.ts:67 | the result has no white space at either end, and it is the input with only white space cut from both ends |
| Text.TrimOfTrimmed | src/pages/api/notifications.ts:67 | trimming a string without outer white space returns it unchanged |
| Text.TrimKeepsVisible | src/pages/api/notifications.ts:67 | every character that is not white space survives trimming |
| Text.Lower | src/pages/api/notifications.ts:67 | lower-casing keeps the length and leaves no ASCII capital; each capital becomes its small letter and every other character stays where it was |
| Text.LowerOfLower | src/pages/api/notifications.ts:67 | lower-casing a string without capitals returns it unchanged |
| Text.Strip | src/pages/api/update-user-devices.ts:25 | removing the quote characters leaves none of them, keeps every other character with its multiplicity, and keeps the order |
| Text.CleanEmail | src/pages/api/update-user-devices.ts:25 | the normalised key holds no quote character, no capital and no outer white space |
| Text.RegistrationKey | src/pages/api/notifications.ts:67 | the registration key holds no `"`, no capital and no outer white space |
| Text.LinkKey | src/pages/api/update-user-devices.ts:25 | the link key holds no `"` or `'`, no capital and no outer white space |
| Text.CleanEmailOfClean | src/pages/api/update-user-devices.ts:25 | normalising an already normal e-mail returns it unchanged |
| Text.RegistrationKeyIdempotent | src/pages/api/notifications.ts:67 | normalising a registration key again changes nothing |
| Text.LinkKeyIdempotent | src/pages/api/update-user-devices.ts:25 | normalising a link key again changes nothing |
| Text.KeysDivergeOnApostrophe | src/pages/api/notifications.ts:67 | for an e-mail with an apostrophe, the registration key keeps it, the link key drops it, and the two keys differ |
| Documents.Apply | src/pages/api/notifications.ts:83-87 | a write touches only its own document and adds at most its own key |
| Documents.ApplyAllElsewhere | src/pages/api/notifications.ts:69 | documents no write names are left as they were |
| Documents.LastReplacementWins | src/pages/api/traccar-event.ts:131-146 | after a run of whole-array replacements of one document, its array is the last one written, and its device ids are unchanged |
| Documents.FindDevice | src/pages/api/notifications.ts:53 | finds the first entry with the device id, and none exactly when no entry has it |
| Documents.WithoutDevice | src/pages/api/notifications.ts:78 | no entry has the device id; every other entry keeps its multiplicity and order |
| Documents.WithoutToken | src/pages/api/notifications.ts:110 | no entry carries the token; every other entry keeps its multiplicity and order |
| Documents.WithoutTokenKeepsUnique | src/pages/api/notifications.ts:110 | removing a token from an array with at most one entry per device keeps that property |
| Documents.ApplyAllKeepsUnique | src/pages/api/notifications.ts:69-87 | writes whose arrays hold at most one entry per device keep every document of the store that way |
| Documents.WithoutTokenIdempotent | src/pages/api/notifications.ts:110 | removing a token twice is removing it once |
| Registry.Registered | src/pages/api/notifications.ts:75-81 | the new entry is last and is the only one for its device; the entries before it are a subsequence of the old array; entries for other devices keep their multiplicities |
| Registry.RegisteredKeepsUnique | src/pages/api/notifications.ts:77-81 | an array with at most one entry per device keeps that property after a registration |
| Registry.RegisteredTwice | src/pages/api/notifications.ts:77-81 | registering the same device and token again yields the same array |
| Registry.NewEntry | src/pages/api/notifications.ts:81 | the new entry carries the device id and token, `createdAt` and `updatedAt` both equal the clock reading, and nothing else is set |
| Registry.CheckUserToken | src/pages/api/notifications.ts:39-58 | 400 without an e-mail; `hasValidToken: false` for a missing document; with a device id, true exactly when some entry has that device, with the first such entry's token; without one, the first entry's token |
| Registry.RegistrationWrite | src/pages/api/notifications.ts:83-87 | the document exists afterwards with the registered array; an existing document keeps its device ids and removal stamp, and a created one has neither |
| Registry.RegisterUnder | src/pages/api/notifications.ts:69-93 | an empty key is an unhandled 500; a store fault is a 500 with the error message and no write; otherwise 200 and exactly the registration write for that key |
| Registry.RegisterUnderEffect | src/pages/api/notifications.ts:75-87 | after a successful registration the document holds the registered array; an existing document keeps its device ids and removal stamp; a missing one is created without them; no other document changes |
| Registry.RegisterToken | src/pages/api/notifications.ts:60-67 | 400 unless both token and e-mail are truthy; otherwise the registration under the normalised e-mail, with the device defaulting to `"default"` only when absent |
| Registry.DeleteToken | src/pages/api/notifications.ts:96-114 | 400 unless e-mail and token are truthy; success without a write for a missing document; otherwise no entry holds the token afterwards, the rest keep their multiplicities and order, and every other field of the document is unchanged |
| Registry.Handle | src/pages/api/notifications.ts:12-37 | OPTIONS is 200; GET checks; DELETE and POST with `action: "unregister"` unregister; other POSTs register; every other method is 405 with `Allow: GET, POST, DELETE` |
| Registry.RegisterUnderKeepsUnique | src/pages/api/notifications.ts:75-87 | the registration's write keeps the document to one entry per device |
| Registry.DeleteTokenKeepsUnique | src/pages/api/notifications.ts:96-114 | the unregistration's write keeps the document to one entry per device |
| Registry.HandleKeepsUnique | src/pages/api/notifications.ts:12-37 | whatever the request, every document keeps at most one entry per device |
| Registry.HandleRegisterThenCheck | src/pages/api/notifications.ts:12-37 | a POST that registers a token under any e-mail with a non-empty normalised form, then a GET for the same device under that normalised form on the resulting store, answers with that token and writes nothing |
| Registry.RegisterThenCheck | src/pages/api/notifications.ts:52-54 | after registering a token for a device under any e-mail with a non-empty normalised form, checking that device under the normalised form returns that token (for an e-mail already in normal form, under the e-mail itself) |
| Registry.RegisterNormalised | src/pages/api/notifications.ts:61-67 | a body with an e-mail, a token and a device id is the registration of that device under the normalised e-mail |
| Registry.RegisterUnderThenCheck | src/pages/api/notifications.ts:75-84 | after registering under a key, checking that device under the key returns the new token |
| Registry.RegisterTwice | src/pages/api/notifications.ts:60-94 | a second registration with the same body at the same clock reading leaves the store as the first left it |
| Registry.ReRegisterRestamps | src/pages/api/notifications.ts:73-81 | registering the same device and token again at a different clock reading stamps the entry with the later reading and changes the store |
| Registry.RegistrationWriteTwice | src/pages/api/notifications.ts:83-87 | applying the registration write a second time changes nothing |
| Registry.DeleteTwice | src/pages/api/notifications.ts:96-114 | a second identical unregistration leaves the store as the first left it |
| Registry.UnnormalisedUnregisterMisses | src/pages/api/notifications.ts:67-103 | for an e-mail not in normal form, unregistering right after registering answers success, writes nothing, and leaves the token registered |
| DeviceLink.LinkWrite | src/pages/api/update-user-devices.ts:34-39 | afterwards the document's ids are the old ones united with the supplied ones, its tokens and removal stamp are unchanged, and a missing document is created with no tokens and no removal stamp |
| DeviceLink.Link | src/pages/api/update-user-devices.ts:12-50 | non-POST is 405 with `Allow: POST`; a missing e-mail or non-array ids is 400; an empty normalised key is 400; a store fault is 500; otherwise 200 with one merge write under the link key |
| DeviceLink.LinkWritesOnlyIds | src/pages/api/update-user-devices.ts:34-39 | every write of the route merges device ids and carries no token array |
| DeviceLink.LinkKeepsUnique | src/pages/api/update-user-devices.ts:12-50 | whatever the request, every document keeps at most one entry per device |
| DeviceLink.LinkEffect | src/pages/api/update-user-devices.ts:25-39 | after a successful link, old ids are kept, exactly the supplied ones are added, tokens are unchanged, and no other document changes |
| DeviceLink.LinkTwice | src/pages/api/update-user-devices.ts:34-39 | linking the same ids again leaves the store as the first link left it |
| Content.KindOf | src/pages/api/traccar-event.ts:62-72 | the case selected for a type string has that type string |
| Content.KindOfTypeName | src/pages/api/traccar-event.ts:62-72 | every listed case is selected by its own type string |
| Content.Base | src/pages/api/traccar-event.ts:61 | the base name is never empty: the event's name when it is a non-empty string, otherwise `Dispositivo ` followed by the device id |
| Content.Attribute | src/pages/api/traccar-event.ts:69-71 | a present non-empty attribute wins; anything else gives the fallback; the result is empty only when the fallback is |
| Content.Heading | src/pages/api/traccar-event.ts:62-72 | title and category are non-empty; `Notificação` and `other` go exactly with unlisted types; each category goes with exactly its two (or one) listed types; `Cerca Virtual` is exactly the geofence title |
| Content.Tail | src/pages/api/traccar-event.ts:63-72 | what follows the base name starts with a space or a colon; an unlisted type gives `: <type>`; an alarm gives `: ` and the alarm attribute or `Alarme ativado` |
| Content.Render | src/pages/api/traccar-event.ts:60-74 | the body starts with the name or `Dispositivo <id>`; the category is `other`, and the title `Notificação`, exactly for unlisted types |
| Content.HeadingDependsOnTypeOnly | src/pages/api/traccar-event.ts:62-72 | two events of the same type get the same title and category |
| Content.UnlistedBody | src/pages/api/traccar-event.ts:72 | an unlisted type gives `Notificação`, `<base>: <type>` and `other` |
| Content.GeofenceWithoutName | src/pages/api/traccar-event.ts:69-70 | without a geofence name the body ends at `entrou em ` or `saiu de ` |
| Content.AlarmWithoutReason | src/pages/api/traccar-event.ts:71 | without an alarm attribute the body reads `<base>: Alarme ativado` |
| Content.UnnamedDevice | src/pages/api/traccar-event.ts:61 | an event without a name is described as `Dispositivo <id>` |
| Dispatch.Validate | src/pages/api/traccar-event.ts:32-34 | an event is accepted exactly when it is present with a truthy device id and type, and then its fields are carried over |
| Dispatch.Resolve | src/pages/api/traccar-event.ts:44-52 | with a hint, the hinted document if it exists; without one, exactly the documents whose device ids hold the device, each once, in store order |
| Dispatch.MessageFor | src/pages/api/traccar-event.ts:84-109 | the message goes to the entry's token, carries the rendered title, body and category and the device id, and links to `/device/<id>` |
| Dispatch.Stamped | src/pages/api/traccar-event.ts:119-124 | the stamp sets `lastUsed` to the server time and `lastEvent` to the event type and leaves every other field of the entry as it was |
| Dispatch.Touched | src/pages/api/traccar-event.ts:117-128 | the stamped array has the snapshot's length; exactly the entries carrying the sent token are stamped, and the others are unchanged |
| Dispatch.TouchWrite | src/pages/api/traccar-event.ts:117-133 | the stamp write replaces the user's array without a removal stamp; the array has the snapshot's length, only `lastUsed`/`lastEvent` may differ, the sent token's entries are stamped and the others are unchanged |
| Dispatch.PruneWrite | src/pages/api/traccar-event.ts:141-146 | the prune write replaces the user's array with a removal stamp; no entry carries the token, and every other entry keeps its multiplicity and order |
| Dispatch.Attempted | src/pages/api/traccar-event.ts:111-148 | one message per token; `sent` counts a delivery; a throwing stamp write counts twice; the loop ends exactly on a throwing prune write; an accepted write after a delivery is the stamp of that token, after a not-registered failure the prune of that token, and there is no edit otherwise |
| Dispatch.Loop | src/pages/api/traccar-event.ts:82-150 | the loop sends at most one message per remaining token, and exactly one each when it is not cut short |
| Dispatch.LoopSends | src/pages/api/traccar-event.ts:82-111 | the messages go to the tokens in array order |
| Dispatch.LoopStopsAtFailedPrune | src/pages/api/traccar-event.ts:141-148 | the loop is cut short exactly at its first throwing prune write |
| Dispatch.LoopCounts | src/pages/api/traccar-event.ts:113-138 | `sent` is the number of deliveries; `sent + failed` is the number of sends plus the throwing stamp writes |
| Dispatch.LoopEditsSnapshotTokens | src/pages/api/traccar-event.ts:117-146 | every edit is for a token of the snapshot |
| Dispatch.LoopEdits | src/pages/api/traccar-event.ts:111-148 | the loop's edits are exactly the edits owed to the tokens it reached: a stamp after each accepted delivery, a prune after each accepted not-registered failure, in array order |
| Dispatch.UserLoop | src/pages/api/traccar-event.ts:77-80 | a user without tokens is skipped; every write replaces that user's token array; at most one message per token, exactly one per token unless the loop ends on a throw, and it ends on a throw exactly when one of the user's tokens has a throwing prune write |
| Dispatch.UserLoopWritesEditSnapshot | src/pages/api/traccar-event.ts:117-146 | every write of a user's loop is a stamp or a prune of the array read before the loop |
| Dispatch.NoTouchFailsTotal | src/pages/api/traccar-event.ts:113-133 | when every store write succeeds, no delivery is counted as failed too, and no prune write throws |
| Dispatch.UserLoopWrites | src/pages/api/traccar-event.ts:82-148 | a user's writes are, in order, the stamp or prune writes owed to the tokens the loop reached, each built from the snapshot |
| Dispatch.Fanout | src/pages/api/traccar-event.ts:77-153 | at most one message per token of the recipients, and exactly one per token when no user's loop ends on a throw |
| Dispatch.FanoutAborts | src/pages/api/traccar-event.ts:141-153 | the fan-out ends on a throw exactly when some recipient has a token whose prune write throws |
| Dispatch.FanoutSplit | src/pages/api/traccar-event.ts:77-82 | the messages of the fan-out are the recipients' own messages, one contiguous block per recipient, in recipient order |
| Dispatch.FanoutWritesSplit | src/pages/api/traccar-event.ts:77-82 | the writes of the fan-out are the recipients' own writes, one contiguous block per recipient, in recipient order |
| Dispatch.FanoutIsolation | src/pages/api/traccar-event.ts:77-150 | a recipient none of whose own prune writes throws gets one message per token, in array order, and exactly its owed stamp and prune writes, each as one contiguous block, whatever the other recipients' writes do |
| Dispatch.FanoutWritesEditSnapshots | src/pages/api/traccar-event.ts:77-146 | every write goes to a recipient and edits that recipient's snapshot |
| Dispatch.UserLoopComplete | src/pages/api/traccar-event.ts:82-150 | when none of the user's prune writes throws: each token gets its message in order, `sent` is the number of deliveries, `sent + failed` is the number of tokens plus the stamp writes that threw, and the writes are exactly the owed stamps and prunes; when no write fails, `sent + failed` is the number of tokens |
| Dispatch.FanoutComplete | src/pages/api/traccar-event.ts:77-153 | when no prune write throws: every token of every recipient gets exactly its message, recipients and tokens in order; `sent` is the number of deliveries; `sent + failed` is the number of tokens plus the stamp writes that threw; the writes are exactly the owed ones, recipient by recipient |
| Dispatch.UserLoopEndsWithLastWrite | src/pages/api/traccar-event.ts:131-146 | a user's array ends as the last write of its loop left it, with device ids unchanged |
| Dispatch.PruneUndoneByLaterSend | src/pages/api/traccar-event.ts:117-146 | with tokens a then b, pruning a and then delivering to b, both writes accepted, writes back an array that still holds a |
| Dispatch.SecondPruneRestoresFirst | src/pages/api/traccar-event.ts:141-146 | with two dead tokens a then b and both prunes accepted, nothing is sent, both count as failed, and the array ends as `[a]` with the removal stamp set |
| Dispatch.Deliver | src/pages/api/traccar-event.ts:59-167 | every write edits a recipient's snapshot; the answer is 500 exactly when some recipient has a token whose prune write throws, and otherwise 200 with the counters; when no prune write throws, every owed message is sent in order, `sent` is the number of deliveries, `sent + failed` is the number of tokens plus the stamp writes that threw, and the writes are exactly the owed ones; when no write fails, the counters sum to the number of tokens |
| Dispatch.DeliverIsolation | src/pages/api/traccar-event.ts:77-167 | a recipient none of whose own prune writes throws gets all its messages and exactly its owed writes, as one contiguous block of the handler's result, whether the answer is 200 or 500 |
| Dispatch.HandleEvent | src/pages/api/traccar-event.ts:24-57 | OPTIONS is 200; an invalid event is 400 before anything is sent; no recipient is 200 with the notice and nothing sent or written; otherwise the delivery |
| Dispatch.TouchedKeepsUnique | src/pages/api/traccar-event.ts:117-128 | stamping entries keeps an array to one entry per device |
| Dispatch.EditKeepsUnique | src/pages/api/traccar-event.ts:117-146 | a stamp or prune write of a device-unique snapshot carries a device-unique array |
| Dispatch.HandleEventKeepsUnique | src/pages/api/traccar-event.ts:24-167 | whatever the event and whatever the provider does, every document keeps at most one entry per device |
| Dispatch.UnwatchedDeviceIsQuiet | src/pages/api/traccar-event.ts:44-57 | an event for a device no user follows, without a hint, sends and writes nothing |

## Left out

- CORS headers and their values are not modelled. Only the `Allow` header of the 405 answers is kept.
- Console logging is not modelled.
- The `timestamp` field of the event endpoint's 200 answer is not modelled: it reads the clock.
- The `details` field of the event endpoint's 500 answer is not modelled: it carries a runtime error message.
- The provider and store initialisation (`src/lib/firebaseAdmin.ts`, `src/lib/firebase.ts`) is not part of this model. Initialisation failures are not modelled.
- Store reads are assumed to succeed. A failing read in GET or DELETE, or in the event endpoint's recipient query, is not modelled.
- DELETE has no store-fault parameter. Its update is outside any `try` in the source.
- Concurrency is not modelled. The event endpoint processes users with `Promise.all`, and the model runs them one after another in the store's enumeration order.
  - With a throwing prune write, the source answers 500 as soon as the first promise rejects, while other users may still be sending.
  - The model lets every user finish, then answers 500.
- Only the parts of the FCM message that depend on the event and the token are modelled: token, title, body, device id, category and link. The webpush icon, badge, tag, urgency and action constants are left out.
- JSON values other than strings are not modelled for e-mails, tokens, device ids and event fields. A device id sent as a number and the same id as a string are not distinguished.
- `deviceIds` are kept as a set, as `arrayUnion` leaves them unique. Firestore's own checks on `arrayUnion` arguments, and on document paths other than the empty one, are not modelled.
- Timestamps are opaque:
  - `new Date().toISOString()` is a string parameter.
  - A server timestamp is a marker with no value.
- The event endpoint imports `getFirebaseFirestore` and `getFirebaseMessaging` from `@/lib/firebaseAdmin` (`src/pages/api/traccar-event.ts:4`), but `src/lib/firebaseAdmin.ts:38` exports only `firestoreDb`, `messaging` and `admin`; the two functions are exported by `src/lib/firebase.ts:21-28`. The model assumes the imports resolve to working clients. As written, the calls at `src/pages/api/traccar-event.ts:38-39` would throw inside the `try`, and every valid event would be answered with 500.
- Dispatch.Attempted: whether a store write succeeds is the provider's `writeSucceeds` flag. That flag abstracts the store's own validation, including its refusal of `FieldValue.serverTimestamp()` inside an array element, which by the store's rules makes every stamp write (`src/pages/api/traccar-event.ts:117-133`) throw. Under that rule each delivery counts as both sent and failed, and no stamp ever reaches the store.
- Text.Lower: lower-cases ASCII capitals only, where JavaScript's `toLowerCase` covers all of Unicode.
- Registry.RegisterUnder: an empty normalised key is answered with an unhandled 500, which stands for the exception the store's `doc("")` raises before the `try`. The framework's error page is not modelled.
