# Recoil DevTools background relay: the per-port message handler

This project models the background page of the Recoil DevTools browser
extension (`packages-ext/recoil-devtools/src/pages/Background/Background.js`).
When a port connects, the background page sets up a message handler for that
port. The handler's state has two parts: a chunk buffer that maps transfer ids
to the text received so far, and a flag that says whether the port is a popup
subscriber. The handler does four things:

- It routes each message by its `action` to the shared transaction store.
  UPDATE goes to `processMessage`, INIT to `connect` and SUBSCRIBE_POPUP to
  `subscribe`.
- It drops a message with no action, or with an action it does not know,
  without saying anything.
- It reassembles UPLOAD_CHUNK transfers. On the final chunk it parses the whole
  text as JSON and re-dispatches the result through itself. The transfer's
  buffer entry is deleted on every exit path.
- On disconnect, it unsubscribes a popup port and disconnects any other port's
  connection.

How the model is laid out:

- `Protocol` holds the message variants, JSON values and the port.
- `StoreLog` holds the store. Only the calls made on it are modelled, as a ghost
  log.
- `Background` holds the connection id and name, and `Dispatch`. `Dispatch` is
  a function that gives one message's effect: the new flag, the new buffer and
  the store calls made. It also holds the `Handler` class. Its fields are the
  closure's variables. `Handle` is the handler itself, and it is proved to have
  exactly the effect `Dispatch` describes. `OnDisconnect` is the disconnect
  listener.
- `BackgroundProperties` states what the handler promises. Some lemmas are about
  a single message. Others are about `Run`, a helper fold that hands a port's
  messages to `Dispatch` one after another, in arrival order, each starting
  from the state the previous one left. This is how the listener registered at
  Background.js:76 receives them. These lemmas cover chunked delivery and the
  popup flag.

JSON.parse is a parameter of the handler. It returns `None` where it would
throw. The recursion through a final chunk is bounded by `depth`, which is the
call-stack budget left. A nested call made with no budget left throws a stack
overflow. The enclosing final chunk's `catch` swallows it, exactly as it
swallows a parse error. Store calls are assumed to return normally. So the
only exception that can escape the handler is the one a chunk that cannot be
converted to text throws at Background.js:61 (see "## Left out"), and a nested
dispatch's effects happen either completely or not at all.

Chunk text is a sequence of UTF-16 code units (`Text`), as JavaScript strings
are. So a sender may cut a text inside a surrogate pair, and the join still
gives back the whole text.

The transfer's entry is deleted only in the `finally` block. So a nested
dispatch sees the entry still holding the whole text, and the model keeps that
behaviour.

Because of this, chunking is not invisible for a message that is itself a
chunk upload on the same transfer id: the nested upload appends to the whole
text still buffered instead of starting from an empty entry.
`ChunkedNonFinalUploadDiffers` shows it for a non-final upload: the chunked
transfer leaves no entry behind, while the upload sent whole leaves one.
`ChunkedFinalUploadDiffers` shows it for a final upload: the nested call parses
the buffered text followed by the upload's chunk, so the chunked transfer can
make no store call where the upload sent whole subscribes the port. This is
why `ChunkedEqualsUnchunked` is stated for messages other than chunk uploads.

For the same reason the source can recurse without bound. Take a final chunk
whose text parses to a final, empty chunk upload on the same transfer. Every
nested call finds that text still buffered, parses it again and calls itself
once more, until the engine's stack overflows. The overflow is caught like a
parse error. `SelfReproducingChunk` proves that, whatever the stack budget,
such a chunk makes no store call and leaves the buffer as it was before it.

A disconnect does not touch `chunksBuffer` (Background.js:78-85). Entries for
transfers whose final chunk never arrived stay in the buffer.
`Handler.OnDisconnect` states that the buffer is unchanged.

The INIT fields passed to `connect` keep the difference between a missing field
(`undefined`, modelled as `None`) and a field present as `null` (`Some(JNull)`);
each is forwarded as whatever JSON value it holds.

## Model

All source paths are relative to the repository root.

| member | source | states |
|---|---|---|
| Background.ConnectionId | packages-ext/recoil-devtools/src/pages/Background/Background.js:21-25 | the connection id is the sender tab's id when there is one, and 0 otherwise |
| Background.ConnectionName | packages-ext/recoil-devtools/src/pages/Background/Background.js:26-29 | the display name is the port's name when present (an empty name is kept), and 'Recoil Connection' otherwise |
| Background.Dispatch | packages-ext/recoil-devtools/src/pages/Background/Background.js:37-74 | one message makes at most one store call, even through re-dispatch after reassembly; every call is for this port's connection id, display name or port; a set popup flag is never reset |
| Background.DisconnectCalls | packages-ext/recoil-devtools/src/pages/Background/Background.js:78-85 | a disconnect makes exactly one store call: `unsubscribe(port)` for a popup port, `disconnect(connectionId)` for any other port |
| Background.Handler.constructor | packages-ext/recoil-devtools/src/pages/Background/Background.js:31-35 | a connecting port's handler takes its id and name from the port and starts with an empty buffer and the popup flag cleared |
| Background.Handler.Handle | packages-ext/recoil-devtools/src/pages/Background/Background.js:37-74 | handling a message leaves the flag and the buffer as `Dispatch` says and appends exactly `Dispatch`'s calls to the store's log |
| Background.Handler.OnDisconnect | packages-ext/recoil-devtools/src/pages/Background/Background.js:78-85 | a disconnect appends `DisconnectCalls` for the current flag to the store's log and leaves the chunk buffer and the flag as they were |
| StoreLog.Store.ProcessMessage | packages-ext/recoil-devtools/src/pages/Background/Background.js:43 | the store receives one `processMessage(msg, connectionId)` call |
| StoreLog.Store.Connect | packages-ext/recoil-devtools/src/pages/Background/Background.js:45-52 | the store receives one `connect(...)` call with the six arguments |
| StoreLog.Store.Subscribe | packages-ext/recoil-devtools/src/pages/Background/Background.js:59 | the store receives one `subscribe(port)` call |
| StoreLog.Store.Unsubscribe | packages-ext/recoil-devtools/src/pages/Background/Background.js:81 | the store receives one `unsubscribe(port)` call |
| StoreLog.Store.Disconnect | packages-ext/recoil-devtools/src/pages/Background/Background.js:83 | the store receives one `disconnect(connectionId)` call |
| BackgroundProperties.IgnoredMessageChangesNothing | packages-ext/recoil-devtools/src/pages/Background/Background.js:39-73 | a message whose action is missing or unknown makes no store call and leaves the buffer and the flag unchanged |
| BackgroundProperties.UpdateProcessesMessage | packages-ext/recoil-devtools/src/pages/Background/Background.js:42-43 | UPDATE makes exactly one call, `processMessage(msg, connectionId)`, and changes neither the buffer nor the flag |
| BackgroundProperties.InitConnects | packages-ext/recoil-devtools/src/pages/Background/Background.js:44-52 | INIT makes exactly one `connect` call with this port's id, name and port and the data's persistence limit, initial values and dev mode forwarded as the JSON values they hold (a `null` field stays `null`), each undefined when the field or the whole `data` object is missing; the buffer and the flag are unchanged |
| BackgroundProperties.SubscribeMarksPopup | packages-ext/recoil-devtools/src/pages/Background/Background.js:57-59 | SUBSCRIBE_POPUP sets the popup flag, makes exactly one call, `subscribe(port)`, and leaves the buffer unchanged |
| BackgroundProperties.NonFinalChunkAppends | packages-ext/recoil-devtools/src/pages/Background/Background.js:60-63 | a non-final chunk sets its transfer's entry to the old text (or '') followed by the chunk (or ''); every other entry is untouched; no store call is made |
| BackgroundProperties.FinalChunkReleasesBuffer | packages-ext/recoil-devtools/src/pages/Background/Background.js:63-71 | after a final chunk its transfer has no entry, whatever happened; if the parse or the nested call throws, only that entry is removed and no store call is made |
| BackgroundProperties.PopupIffSubscribed | packages-ext/recoil-devtools/src/pages/Background/Background.js:57-66 | after one message, including any re-dispatch, the popup flag is set exactly when it was set before or the message subscribed this port |
| BackgroundProperties.RunPopupIffSubscribed | packages-ext/recoil-devtools/src/pages/Background/Background.js:34-59 | over any sequence of messages the flag is never reset, and it ends up set exactly when it was set or some message subscribed this port |
| BackgroundProperties.RunCallsFromHandler | packages-ext/recoil-devtools/src/pages/Background/Background.js:42-73 | n messages make at most n store calls; all of them are for this port; none is an unsubscribe or a disconnect |
| BackgroundProperties.DisconnectAfterRun | packages-ext/recoil-devtools/src/pages/Background/Background.js:78-85 | after any messages on a new port, the disconnect unsubscribes the port if those messages subscribed it, and disconnects the connection otherwise |
| BackgroundProperties.RunAppend | packages-ext/recoil-devtools/src/pages/Background/Background.js:76 | handling messages `a + b` in order is handling `a` and then `b` from the state `a` left behind, with the calls concatenated |
| BackgroundProperties.NonFinalChunks | packages-ext/recoil-devtools/src/pages/Background/Background.js:60-63 | a helper that builds a sender's non-final UPLOAD_CHUNK messages, one per chunk and in order, as input to the chunking lemmas; it models no step of the handler |
| BackgroundProperties.NonFinalChunksAccumulate | packages-ext/recoil-devtools/src/pages/Background/Background.js:60-62 | a run of non-final chunks appends their texts, in order, to the transfer's entry; it makes no calls and leaves every other entry and the flag unchanged |
| BackgroundProperties.ChunkedDelivery | packages-ext/recoil-devtools/src/pages/Background/Background.js:60-71 | chunks c1..cn for a transfer with no entry, with only cn final: if parsing c1+...+cn succeeds, the result is dispatched once, as that message would be, and the entry is then gone; if the parse fails, no store call is made and the state is as before |
| BackgroundProperties.ChunkedEqualsUnchunked | packages-ext/recoil-devtools/src/pages/Background/Background.js:60-66 | a message other than a chunk upload, delivered in chunks that parse to it, has exactly the effect of sending it whole |
| BackgroundProperties.ChunkedNonFinalUploadDiffers | packages-ext/recoil-devtools/src/pages/Background/Background.js:60-71 | a transfer with no entry whose whole text parses to a non-final upload of `c` on the same transfer: the chunked delivery ends with the state as it was and no store call, while that upload sent whole leaves the entry `c` |
| BackgroundProperties.ChunkedFinalUploadDiffers | packages-ext/recoil-devtools/src/pages/Background/Background.js:60-71 | a transfer with no entry whose whole text parses to a final upload of `c` on the same transfer: the nested call parses the whole text followed by `c`, so when only `c` parses (to SUBSCRIBE_POPUP) the chunked delivery makes no store call, while that upload sent whole subscribes the port |
| BackgroundProperties.SelfReproducingChunk | packages-ext/recoil-devtools/src/pages/Background/Background.js:60-71 | a final chunk whose text parses to a final, empty upload on the same transfer recurses until the stack runs out; at every budget it makes no store call and leaves the flag and the buffer as they were |
| BackgroundProperties.ReparsesBufferedText | packages-ext/recoil-devtools/src/pages/Background/Background.js:60-71 | the nested step of that recursion: a final, empty upload whose buffered text parses to itself makes no store call, keeps the flag and removes only its own entry, at every budget |

## Left out

- The transaction store's internals are not part of this model: its transaction log, eviction by persistence limit, lookups and rebroadcast to subscribers. `utils/Store` is not part of this model. The store is reduced to the log of calls made on it.
- JSON.parse is a parameter. The model does not say which texts parse, or to what.
- Decoding a parsed value into a message variant is abstracted. This covers matching `action` against the action constants (`constants/Constants` is not part of this model), taking the truthiness of `isFinalChunk`, and the conversion of a `chunk` that is not a string by the `+` that joins it (5 becomes "5", an object "[object Object]"). It happens where the message is built; `Msg` holds the result. A `chunk` that `+` cannot convert (an object whose `toString` and `valueOf` are not functions, such as `{"toString": 0}`) throws a TypeError at Background.js:61, before the buffer is touched. The model has no message for it. Its effect is covered all the same: at top level the exception leaves the handler with no state change and no store call, which is the effect of `NoAction`; inside a nested call the enclosing `catch` swallows it, which is the effect of `parse` returning `None`.
- Strings other than chunk text (port names, JSON strings and keys) are Dafny strings of Unicode scalar values, not UTF-16 code units. The handler only forwards or compares them, so no boundary inside them arises.
- `txID` is modelled as an integer. A message whose `txID` is missing or is not a number would use that value as its map key; the model does not cover this.
- JSON numbers are modelled as integers.
- `Logger` output (`debug`, `warn`) has no effect and is left out.
- The call-stack limit of the JavaScript engine is the `depth` parameter. Its actual value is not modelled.
- Exceptions thrown by store methods are not modelled. The store's code cannot be seen, and its calls are assumed to return.
- Chrome plumbing is left out: `chrome.runtime.onConnect`, `port.onMessage.addListener` and `port.onDisconnect.addListener` (Background.js:76, 78, 88), and `window.store` (Background.js:19). A port's events are calls to `Handler.Handle` and `Handler.OnDisconnect` on one shared `Store`.
- `packages-ext/recoil-devtools/src/pages/Popup/Items/DiffItem.js` is a React rendering component and is not modelled.
- `packages/shared/util/Recoil_ReactBatchedUpdates.js` is a one-line re-export and is not modelled.
