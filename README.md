# Buzzer server: user registry and broadcasts

A model of the Node.js server of a small socket.io chat-and-buzzer
application. The server keeps one module-level dictionary, `users`, from a
socket id to a display name. Five event handlers read or change it:

- on connection the socket gets the default name `"User"` followed by the first
  two characters of its id;
- `setName` renames the socket, but only when the name is not blank after
  trimming, and stores the name untrimmed;
- `disconnect` deletes the socket's entry;
- `message` and `buzzer` build outgoing payloads from the sender's current name.

Each handler ends with at most one `io.emit`, which reaches every connected
client.

The model has four layers:

- `JsText` (js_text.dfy) models the JavaScript string primitives used: `trim` with
  ECMAScript's whitespace set, truthiness, `substr`, and `undefined`.
- `Protocol` (protocol.dfy) defines the events and the session state. The state is
  the registry plus an append-only outbox of emissions. Each emission is an
  audience and an event.
- `Handlers` (handlers.dfy) gives one function per handler, from the state
  before an event to the state after it. `Step` dispatches an inbound event
  and `Run` folds a whole trace.
- `Gateway.Server` (gateway.dfy) is the imperative form. It is a class with
  the `users` and `outbox` fields and one method per handler. Each method
  updates the registry in place and then appends to the outbox. Each is
  proved equal to its `Handlers` function.

`SessionProperties` (session_properties.dfy) proves facts about whole traces:

- the log is append-only, with one emission per event except a rejected rename;
- nothing is ever addressed to one socket;
- one socket's entry depends only on that socket's own events;
- the buzzer accepts any number of presses.

A lookup of an id that is not a key models JavaScript's `undefined`: the
chat line then starts with `"undefined"` and the buzz carries no name, and a
`setName` for an absent id inserts it, as a JavaScript property assignment
does. Under socket.io these paths do not arise for a live socket: its handlers
run only between its connection, which inserts its entry, and its
disconnection, the only event that removes it. `StaysRegistered` and
`ConnectedSenderHasName` prove that on such traces the sender always has a
stored name; the handlers are still modelled for any state.

## Model

| member | source | states |
|---|---|---|
| JsText.TrimStart | server/index.js:35 | the result is a suffix of the input, everything removed is whitespace, and the result does not start with whitespace |
| JsText.TrimEnd | server/index.js:35 | the result is a prefix of the input, everything removed is whitespace, and the result does not end with whitespace |
| JsText.Trim | server/index.js:35 | over ECMAScript's whitespace set (`IsWhitespace`: WhiteSpace and LineTerminator code points), `name.trim()` is a slice of the name with only whitespace on either side; it is empty iff the name is all whitespace, and otherwise begins and ends with a non-whitespace character |
| JsText.Substr | server/index.js:18 | `substr(start, length)` yields min(length, what is left after start) characters, each the input's character at start plus its offset |
| Handlers.LookupAfterChange | server/index.js:18-44 | reading `users[id]` (`Lookup`, `undefined` for a missing key) after the assignments at :18 and :36 gives the assigned name, after the `delete` at :44 gives `undefined`, and neither changes what is read at any other key |
| Handlers.AcceptsName | server/index.js:35 | the guard `name && name.trim()` (string truthiness is `Truthy`, non-emptiness) holds exactly when the name is not all whitespace |
| Handlers.DefaultName | server/index.js:18 | the default name is "User" followed by the first min(2, length) characters of the socket id |
| Handlers.ChatLine | server/index.js:24 | the broadcast chat text is the sender's name as the template literal renders it (`Interpolate`: the string itself, or "undefined"), then ": ", then the message unchanged |
| Handlers.Connect | server/index.js:18-19 | the id's entry becomes the default name, the key set gains only the id, every other entry is unchanged, and exactly one `users` snapshot of the new map is appended |
| Handlers.SendMessage | server/index.js:22-25 | `users` is unchanged and exactly one `message` event with the chat line built from the sender's current entry is appended |
| Handlers.PressBuzzer | server/index.js:28-31 | `users` is unchanged and exactly one `buzzer` event with the sender's current entry and the given timestamp is appended, with no admission check |
| Handlers.SetName | server/index.js:34-39 | a name that fails `name && name.trim()` changes nothing and emits nothing; any other name is stored exactly as given, no other entry changes, and one snapshot of the new map is appended |
| Handlers.Disconnect | server/index.js:42-46 | exactly the id is removed from the key set, every remaining entry is unchanged, and one snapshot of the remaining map is appended |
| Handlers.Step | server/index.js:14-47 | any inbound event either leaves the state untouched or appends exactly one emission, addressed to everyone; a `users` emission carries the map after the change; only the sender's entry can change |
| Handlers.Run | server/index.js:14-47 | handling events one after another in arrival order only appends to the outbox: the old log is a prefix of the new |
| SessionProperties.AcceptsNameIff | server/index.js:35 | the `name &&` conjunct of the guard adds nothing for strings: the guard holds exactly when `name.trim()` is non-empty |
| SessionProperties.RunEmissionCount | server/index.js:14-47 | over any trace the outbox only grows at its end, by one emission per event minus the number of rejected renames |
| SessionProperties.RunOnlyBroadcasts | server/index.js:19-45 | every emission of any trace is sent to every client (`io.emit`), never to one socket, so senders receive their own messages and buzzes |
| SessionProperties.StepOwnEntry | server/index.js:14-47 | the effect of a socket's own event on its entry depends only on that entry's previous value |
| SessionProperties.RunIsolation | server/index.js:14-47 | after any trace, a socket's entry equals the entry obtained by running only the events that socket sent |
| SessionProperties.BuzzesAt | server/index.js:30 | the k-th emission produced by a run of presses is a `buzzer` event to everyone with the k-th timestamp |
| SessionProperties.RunUnlimitedBuzzes | server/index.js:28-31 | any number of presses by one socket leaves `users` unchanged and appends one buzz per press, each with the sender's current entry and that press's time, in order |
| SessionProperties.ConnectThenDisconnect | server/index.js:18-45 | a connection followed at once by its disconnection leaves the registry as it was without that id, and appends exactly two `users` broadcasts: the map with the default name, then the map without the id |
| SessionProperties.StaysRegistered | server/index.js:18-45 | a registered socket stays registered through any trace that does not contain its own disconnection |
| SessionProperties.ConnectedSenderHasName | server/index.js:18-30 | after a socket connects and until it disconnects, looking up its name never yields `undefined` |
| Gateway.Server.constructor | server/index.js:12 | the registry starts empty and nothing has been emitted |
| Gateway.Server.Connect | server/index.js:18-19 | assigns the default name in place, then appends one `users` snapshot; equal to `Handlers.Connect` |
| Gateway.Server.Message | server/index.js:22-25 | leaves `users` alone and appends one chat line; equal to `Handlers.SendMessage` |
| Gateway.Server.Buzzer | server/index.js:28-31 | leaves `users` alone and appends one buzz with the given timestamp; equal to `Handlers.PressBuzzer` |
| Gateway.Server.SetName | server/index.js:34-39 | under the guard, assigns the untrimmed name in place and appends one snapshot; otherwise changes nothing; equal to `Handlers.SetName` |
| Gateway.Server.Disconnect | server/index.js:42-46 | deletes the entry in place and appends one snapshot of what remains; equal to `Handlers.Disconnect` |
| Gateway.Server.Handle | server/index.js:14-47 | dispatching an inbound event by name has exactly the effect of `Handlers.Step` |

## Left out

- The express, http and socket.io setup, the CORS options and `httpServer.listen` (server/index.js:1-11, 49) are left out. They are transport plumbing, so an emission is modelled as appending to the outbox.
- `new Date().toLocaleTimeString()` (server/index.js:29) depends on the clock and the locale. The timestamp is a parameter of the buzzer handler instead.
- The `console.log` calls are left out. They only log.
- Non-string `message` and `name` payloads are left out; both are modelled as strings. A falsy non-string `name` (`undefined`, `null`, `0`, `false`, `NaN`) is stopped by `name &&` at server/index.js:35, so nothing is thrown, stored or emitted. A truthy non-string (a number, array, object, `true` or binary payload) reaches `.trim()`, which throws a TypeError out of the handler. A non-string `message` would be stringified by the template literal.
- A JavaScript property read also finds `Object.prototype` members (`users["toString"]` is a function, not `undefined`). Socket ids are assumed not to be such names; socket.io's generated 20-character ids never are.
- The delivery of an emission to sockets is not modelled. The outbox records the addressing form, which is always everyone here. It does not record which sockets were connected at the time.
- JavaScript objects keep their keys in insertion order, and the `users` map does not. So a snapshot's key order is not modelled.
- JavaScript strings are UTF-16 code units, while the model's characters are Unicode scalar values. So `substr(0, 2)` on an id that starts with a character outside the Basic Multilingual Plane differs. socket.io ids are ASCII.
- The whitespace set follows ECMAScript's WhiteSpace and LineTerminator productions for the current Unicode space separators. It leaves out U+180E, which older engines treated as a space.
- The Angular client (buzz.service.ts, buzz.component.ts, app.module.ts, app-routing.module.ts) is left out. It is a socket.io-client wrapper and UI glue with no server state.
- Rooms, hosts, buzz modes, rounds, timers and per-round fire sets are left out. They do not exist in server/index.js. That also means this buzzer has no admission control, as RunUnlimitedBuzzes states.
