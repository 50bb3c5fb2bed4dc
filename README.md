# Chat room session machinery, modelled in Dafny

The system is a browser chat client written with Solid, plus the Rust (axum) chat service it talks to. This project models two parts of it.

**The client's room session machinery:**
- the session store, which mirrors its token and room list into the browser's key-value storage and reads them back at page load;
- the chat pane, which closes its server-push source before opening a new one on every room change, keeps a single 5000 ms heartbeat timer, filters inbound events by room, and posts the send form;
- the room panel, which treats a "room already exists" answer as success;
- the login form's ordered sequence of calls;
- the application shell's logged-in and selected-room flags;
- the chat API wrappers that map HTTP outcomes to values or errors.

**The chat service's bookkeeping:**
- bearer-header validation;
- the room set with conflict detection;
- the user map kept current by posts and heartbeats;
- the inactivity rule;
- the broadcast channel, seen as the sequence of messages sent on it.

Stateful parts are classes whose methods state their whole new state:
- `SessionStore`, `ChatRoomPane`, `RoomsPanel`, `LoginForm`, `App` and `ChatServer`;
- browser storage is a `map<string, string>`;
- push sources and timers are records with an open (or active) flag.

Network calls, clocks and token verification are parameters:
- what `fetch` resolved or rejected with is an `HttpOutcome`;
- the time is an integer number of milliseconds;
- signature and expiry checking is a function `verify` from token text to claims.

Modules, one per file:
- `Common`: `Option`, `Result`, `String.prototype.includes`, decimal numerals, form fields.
- `RoomsJson`: the JSON text of a room list, and its round trip.
- `Store`, `ChatApi`, `ChatRoom`, `RoomsPanel`, `LoginForm`, `App`: the client.
- `ChatServer`: the service.
- `Interop`: lemmas that connect the client and the service.

Where the code's behaviour is easy to misread, the model follows the code as written:
- A message send is refused only for the empty string. There is no trimming.
- A failed send is only logged. No error is shown.
- `logout` removes the `token` and `rooms` storage keys. It leaves the `user` key, which `setUser` wrote as the text `[object Object]`.
- Reading a malformed stored room list throws at start-up. It is not coerced to an empty list.
- The push source is opened on `/events` with no room in the request. The room check in `onmessage` is the only thing that scopes events to a room.

## Model

| member | source | states |
|---|---|---|
| RoomsJson.RoundTrip | client/src/store.jsx:33-36 | reading back the JSON text of any room list gives that list |
| RoomsJson.Stringify | client/src/store.jsx:35 | the JSON text of a room list is bracketed by `[` and `]`, and is `[]` exactly for the empty list |
| RoomsJson.ParseRooms | client/src/store.jsx:9 | a text is read as a list only when its first non-blank character is `[`; `[]` reads as the empty list |
| RoomsJson.EmptyListRead | client/src/store.jsx:9 | blanks followed by `[]` read as the empty list |
| RoomsJson.UnicodeEscape | client/src/store.jsx:9 | a `\u` escape uses four hex digits, or ten characters when a high surrogate half is followed by the escape of a low half |
| RoomsJson.Hex4TextRead | client/src/store.jsx:9 | four hex digits printed for a code unit read back as that code unit |
| RoomsJson.PairEscapeRead | client/src/api/chat.js:87 | the escape of a character outside the basic plane, written as a surrogate pair, reads back as that one character |
| RoomsJson.LoneLowHalfRefused | client/src/store.jsx:9 | a `\u` escape naming a low surrogate half with no high half before it makes the text unreadable |
| Store.HydrateRooms | client/src/store.jsx:9 | an absent key or a falsy JSON text gives the empty list; a non-empty list comes only from reading the stored text |
| Store.UserText | client/src/store.jsx:31 | the stored text is `null` exactly when there is no user |
| Store.OrNull | client/src/store.jsx:8 | a truthy token is kept; `null` or `''` becomes absent |
| Store.Hydrate | client/src/store.jsx:8-15 | start-up fails exactly when the stored list cannot be read; user is always absent; token is the stored one with `''` made absent; rooms are the stored list, or empty when absent |
| Store.WithRoom | client/src/store.jsx:37-43 | the room is listed afterwards; a listed room leaves the list unchanged; a new one is appended at the end with the old order kept; no duplicates is preserved |
| Store.WithRoomIdempotent | client/src/store.jsx:37-43 | adding a room twice gives the same list as adding it once |
| Store.StoredRoomsReadBack | client/src/store.jsx:9 | a list written to `rooms` is hydrated back unchanged |
| Store.HydrateAfterLogout | client/src/store.jsx:44-50 | after logout's key removals, a reload starts with no token, no user and no rooms |
| Store.HydrateIgnoresUser | client/src/store.jsx:29-32 | writing the `user` key never changes what a reload sees |
| Store.MirrorsIsHydrate | client/src/store.jsx:6-15 | storage mirrors a session exactly when a reload would give back its token (up to `|| null`) and its room list, with no user |
| Store.WithToken | client/src/store.jsx:23-27 | afterwards the stored token is the new one up to `|| null`, and the stored room list is untouched |
| Store.TokenWritten | client/src/store.jsx:20-28 | writing or removing the token keeps storage mirroring the session, now with the new token |
| Store.UserWritten | client/src/store.jsx:29-32 | writing the `user` key keeps storage mirroring the same session |
| Store.RoomsWritten | client/src/store.jsx:33-36 | writing a room list's JSON keeps storage mirroring the session, now with that list |
| Store.LoggedOut | client/src/store.jsx:44-50 | without the `token` and `rooms` keys storage mirrors a session with no token and no rooms |
| Store.SessionStore.constructor | client/src/store.jsx:6-15 | the store starts as the hydrated session and keeps storage consistent with memory |
| Store.SessionStore.SetToken | client/src/store.jsx:20-28 | memory takes the token; a truthy one is written to `token`, a falsy one removes that key; nothing else changes |
| Store.SessionStore.SetUser | client/src/store.jsx:29-32 | memory takes the user; `user` is written with its string form |
| Store.SessionStore.SetRooms | client/src/store.jsx:33-36 | the list is replaced as given, duplicates included, and its JSON is written to `rooms` |
| Store.SessionStore.AddRoom | client/src/store.jsx:37-43 | a listed room changes neither memory nor storage; a new one is appended and the new list is written |
| Store.SessionStore.Logout | client/src/store.jsx:44-50 | token, user and rooms are cleared; exactly the `token` and `rooms` keys are removed |
| Common.DecimalReadBack | client/src/api/chat.js:10 | the printed clock reads back as the same number |
| ChatApi.BearerHeader | client/src/api/chat.js:17 | the header is `Bearer ` followed by the token, or by `null` when there is none |
| ChatApi.MessageForm | client/src/api/chat.js:7-11 | the form's field names are `room`, `message`, `timestamp`, `username`, in that order |
| ChatApi.BuildMessageForm | client/src/api/chat.js:7-11 | the fields are room, message, timestamp and username, in that order; each reads back the value given, and username is `0` |
| ChatApi.SendMessage | client/src/api/chat.js:6-24 | posts that form to `/message` with the bearer header; the error is that of `SendMessageResult` |
| ChatApi.SendMessageResult | client/src/api/chat.js:21-23 | succeeds exactly on a 2xx; any other status throws `Failed to send message` |
| ChatApi.HeartbeatRequestFor | client/src/api/chat.js:26-34 | posts the given room to `/heartbeat` with the bearer header |
| ChatApi.HeartbeatResult | client/src/api/chat.js:35-37 | fails only when `fetch` rejects, whatever the status |
| ChatApi.EventSourceFor | client/src/api/chat.js:43-56 | always `/events` with credentials and the bearer header; the room is not part of the request |
| ChatApi.CreateRoomRequestFor | client/src/api/chat.js:59-67 | posts the room name to `/rooms` with the bearer header |
| ChatApi.CreateRoomResult | client/src/api/chat.js:68-75 | a 2xx gives the body; 409 throws `409 Conflict`; any other status throws `Failed to create room: ` and the status text |
| ChatApi.ListRoomsRequestFor | client/src/api/chat.js:78-83 | gets `/rooms` with the bearer header |
| ChatApi.ListRoomsResult | client/src/api/chat.js:84-87 | a non-2xx throws `Failed to fetch rooms`; a 2xx gives a list exactly when the body is the JSON of one |
| ChatApi.ListRoomsReadsEncodedList | client/src/api/chat.js:87 | a 200 whose body is the JSON of a list gives back exactly that list |
| ChatRoom.RoomFilter | client/src/components/ChatRoom.jsx:101-102 | keeps exactly the events tagged with the room, in log order |
| ChatRoom.RoomFilterConcat | client/src/components/ChatRoom.jsx:40 | filtering a log extended by appends is filtering each part |
| ChatRoom.RoomFilterIdempotent | client/src/components/ChatRoom.jsx:39-41 | when every event passed the on-arrival check, the render-time filter hides nothing more |
| ChatRoom.DisplayName | client/src/components/ChatRoom.jsx:106 | the sender's name when it is non-empty, `System` otherwise |
| ChatRoom.ChatRoomPane.Displayed | client/src/components/ChatRoom.jsx:101-102 | shows exactly the logged events of the current room |
| ChatRoom.ChatRoomPane.constructor | client/src/components/ChatRoom.jsx:24-60 | mounting opens one source for the room and sets one 5000 ms timer; the log and input start empty |
| ChatRoom.ChatRoomPane.RunRoomEffect | client/src/components/ChatRoom.jsx:24-55 | the old source is closed before the new one is opened, and the old timer cleared before the new one is set; afterwards only the new ones are live; the log is kept |
| ChatRoom.ChatRoomPane.RebindSource | client/src/components/ChatRoom.jsx:25-31 | the open source, if any, is closed, then exactly one new source is opened for the selected room with the pane's token; timers are untouched |
| ChatRoom.ChatRoomPane.RebindHeartbeat | client/src/components/ChatRoom.jsx:46-55 | the set timer, if any, is cleared, then exactly one new 5000 ms timer is set; sources are untouched |
| ChatRoom.ChatRoomPane.SetRoom | client/src/components/ChatRoom.jsx:24-31 | a different room rebinds source and timer to it without truncating the log; writing the same room changes nothing |
| ChatRoom.ChatRoomPane.OnMessage | client/src/components/ChatRoom.jsx:34-44 | an event is appended at the end exactly when it is tagged with the current room; otherwise the log is unchanged |
| ChatRoom.ChatRoomPane.HeartbeatTick | client/src/components/ChatRoom.jsx:50-55 | each tick posts the room current at that moment; only a rejected `fetch` is logged, and the timer stays |
| ChatRoom.ChatRoomPane.HandleSend | client/src/components/ChatRoom.jsx:74-84 | an empty input makes no request; otherwise the text is posted for the current room; success clears the input, failure keeps it; the log is never written |
| ChatRoom.ChatRoomPane.Teardown | client/src/components/ChatRoom.jsx:63-71 | every source is closed and every timer cleared; nothing else changes |
| ChatRoom.SingleLiveTransport | client/src/components/ChatRoom.jsx:24-55 | at most one source is open and at most one timer is set at any time |
| ChatRoom.SwitchWithEventsInFlight | client/src/components/ChatRoom.jsx:39-41 | after a room switch, events still arriving for the old room are all discarded |
| Common.Contains | client/src/components/RoomsPanel.jsx:42 | `includes` holds exactly when some window of the text spells the word |
| RoomsPanel.IsConflictMessage | client/src/components/RoomsPanel.jsx:42 | an error message is a conflict exactly when `409` or `Conflict` occurs somewhere in it |
| RoomsPanel.ConflictClassification | client/src/components/RoomsPanel.jsx:42 | an error counts as a conflict exactly for a 409, for another failing status whose text holds `409` or `Conflict`, or for a network error whose message does |
| RoomsPanel.FailureTextConflict | client/src/api/chat.js:72 | the generic failure message is a conflict exactly when its status text is |
| RoomsPanel.RoomsPanel.constructor | client/src/components/RoomsPanel.jsx:16-27 | on mount the panel's list equals the store's list |
| RoomsPanel.RoomsPanel.AddLocalRoomIfMissing | client/src/components/RoomsPanel.jsx:53-58 | acts only for a name the panel does not list: the store adds it and the panel appends it, and the new list's JSON is written to `rooms`; a listed name leaves storage untouched; both lists stay equal and duplicate-free |
| RoomsPanel.RoomsPanel.HandleCreateRoom | client/src/components/RoomsPanel.jsx:29-50 | empty input: no request and no change; otherwise the error is cleared before the request; success or conflict adds the room if missing, writing the new list's JSON to `rooms`, and clears the input; any other error is shown and the input and both lists are kept |
| RoomsPanel.RoomsPanel.HandleSelectRoom | client/src/components/RoomsPanel.jsx:61-63 | hands on exactly the clicked name |
| RoomsPanel.ConflictActsAsSuccess | client/src/components/RoomsPanel.jsx:42-45 | a 409 leaves the panel in the state a success does, with no error shown |
| LoginForm.Toggled | client/src/components/LoginForm.jsx:72 | the switch flips between login and register |
| LoginForm.ToggleTwice | client/src/components/LoginForm.jsx:72 | two switches give back the starting mode |
| LoginForm.RegisterSteps | client/src/components/LoginForm.jsx:17-19 | a registration call comes first exactly in register mode |
| LoginForm.LoggedInSteps | client/src/components/LoginForm.jsx:22-31 | after login: set token, set user, create the lobby, add the lobby, then `onLogin` last |
| LoginForm.LoginForm.constructor | client/src/components/LoginForm.jsx:8-12 | the form starts in login mode with no error |
| LoginForm.LoginForm.ToggleMode | client/src/components/LoginForm.jsx:72 | the mode becomes the other one |
| LoginForm.LoginForm.HandleLoginOrRegister | client/src/components/LoginForm.jsx:14-35 | a failed registration stops before login; a failed login changes no store state and skips `onLogin`; both show the error; a successful login stores the token and user, clears the error, leaves `lobby` in the rooms exactly once whatever the lobby creation did, then calls `onLogin` |
| LoginForm.LoginForm.CompleteLogin | client/src/components/LoginForm.jsx:22-31 | the store holds the returned token and the user, and the rooms include `lobby` |
| App.App.constructor | client/src/App.jsx:9-14 | logged in at start exactly when the stored token is truthy; the selected room is `lobby` |
| App.App.HandleRoomSelected | client/src/App.jsx:16-18 | the selected room becomes the given name and nothing else changes |
| App.App.LogoutClicked | client/src/App.jsx:20-23 | the store logs out, then the login form is shown |
| App.App.OnLogin | client/src/App.jsx:28 | the chat view is shown |
| App.LogoutThenReload | client/src/App.jsx:9 | a page reloaded after logout starts logged out with no rooms |
| ChatServer.UnixSeconds | chat-service/src/main.rs:97 | message timestamps are the whole seconds of the clock |
| ChatServer.ParseI64 | chat-service/src/main.rs:64 | a form timestamp is accepted only within the `i64` range |
| ChatServer.DecodeMessageForm | chat-service/src/main.rs:59-68 | a decoded message comes from a form naming each declared field at most once; its room, message and sender are those of the form, and its timestamp is the form's, read as an `i64` |
| ChatServer.MessageFrom | chat-service/src/main.rs:59-68 | a message is built only when room, message, timestamp and username are all present and the timestamp is an `i64`; it carries those values |
| ChatServer.UndeclaredFieldsIgnored | chat-service/src/main.rs:59-68 | appending fields whose names `Message` does not declare, repeated or not, changes nothing in what the form decodes to |
| ChatServer.RepeatedDeclaredFieldRefused | chat-service/src/main.rs:59-68 | a form naming a declared field twice is refused |
| ChatServer.DistinctNamesDeclaredOnce | chat-service/src/main.rs:59-68 | a form with distinct field names names each declared field at most once |
| ChatServer.DecodeJwtFromHeader | chat-service/src/main.rs:136-156 | missing header: 401; non-visible-ASCII header: 400; no `Bearer ` prefix: 401; unverifiable token: 401; otherwise the claims of the text after the 7-character prefix |
| ChatServer.RejectionStatus | chat-service/src/main.rs:136-156 | every rejection is a 400 or a 401 |
| ChatServer.WithinLength | chat-service/src/main.rs:189-191 | for an ASCII message the 500-byte limit is a 500-character limit |
| ChatServer.Utf8Len | chat-service/src/main.rs:189 | a message's byte length is between its character count and four times that |
| ChatServer.AsciiLength | chat-service/src/main.rs:189 | an ASCII text has as many bytes as characters |
| ChatServer.LengthBoundary | chat-service/src/main.rs:189-191 | 500 ASCII characters pass the length check; 501 do not |
| ChatServer.LengthBounds | chat-service/src/main.rs:189-191 | up to 125 characters always pass; more than 500 never do |
| ChatServer.SystemMessage | chat-service/src/main.rs:93-100 | a system notice is in room `system`, from `System`, of system type, with the given text |
| ChatServer.JoinMessage | chat-service/src/main.rs:209-215 | a join notice is in the room of the post, from the new user, of joined type |
| ChatServer.Stamped | chat-service/src/main.rs:193-195 | a posted message keeps its room and text; sender, timestamp and type are replaced |
| ChatServer.DisconnectNotices | chat-service/src/main.rs:130-132 | one disconnect notice per removed user, in order |
| ChatServer.IsInactive | chat-service/src/main.rs:121-125 | a user is active exactly from its last-seen time to 30 s after it; a last-seen time in the future counts as inactive |
| ChatServer.ThresholdIsStrict | chat-service/src/main.rs:119-127 | exactly 30 s of silence is still active; a moment more is inactive |
| ChatServer.SeenNowIsActive | chat-service/src/main.rs:119-127 | a user just seen stays active for 30 s |
| ChatServer.ChatServer.constructor | chat-service/src/main.rs:296-301 | no users, no rooms, nothing sent |
| ChatServer.ChatServer.BroadcastSystemMessage | chat-service/src/main.rs:93-102 | exactly one system notice is appended |
| ChatServer.ChatServer.RemoveUser | chat-service/src/main.rs:104-111 | the user is removed; the disconnect notice is sent only if the user was there |
| ChatServer.ChatServer.Heartbeat | chat-service/src/main.rs:158-176 | a rejected header is answered as decoded; a known user gets last-seen time and room updated and 200; an unknown one gets 404; users are never added |
| ChatServer.ChatServer.PostMessage | chat-service/src/main.rs:178-222 | authentication comes first, then the length check; either failure changes nothing; otherwise the sender is recorded with the post's room, a first-time sender is announced before the stamped message is sent, and every known user has been announced |
| ChatServer.ChatServer.AddRoom | chat-service/src/main.rs:224-246 | a known name is a 409 with nothing changed; a new one is inserted and announced once as `New room created: ` and the name |
| ChatServer.ChatServer.ListRooms | chat-service/src/main.rs:248-261 | the JSON list of every room exactly once; a rejection is its status with its text as a one-element list |
| ChatServer.ChatServer.SelectInactive | chat-service/src/main.rs:117-127 | selects each inactive user exactly once |
| ChatServer.ChatServer.CleanupPass | chat-service/src/main.rs:114-134 | exactly the inactive users are removed, the others keep their entries, and one disconnect notice is sent for each removed user |
| Interop.ServerReadsClientBearer | chat-service/src/main.rs:143-154 | the service checks exactly the token the client put in its header |
| Interop.MessageFormFields | client/src/api/chat.js:7-11 | the client's form has distinct field names with the values given and no message type |
| Interop.MessageFormNames | client/src/api/chat.js:7-11 | the form's four field names are `room`, `message`, `timestamp`, `username`, all distinct |
| Interop.LaterFieldValues | client/src/api/chat.js:10-11 | a decoder taking each name's first field reads the clock and the `0` sender, and finds no message type |
| Interop.TimestampReadBack | chat-service/src/main.rs:64 | the client's printed clock is read back as the same `i64` |
| Interop.ServerReadsClientForm | chat-service/src/main.rs:181 | the service reads the client's form as a message with the room, text, clock and placeholder sender the client sent |
| Interop.PaneSendReachesService | client/src/components/ChatRoom.jsx:74-84 | a non-empty input sent from a pane is decoded by the service as a message with the pane's room, the typed text, the clock and the `0` sender; an empty input sends nothing |
| Interop.AsEvent | chat-service/src/main.rs:273 | the pane receives a service message's room, sender and text |
| Interop.SystemNoticeHidden | chat-service/src/main.rs:95 | a system notice never changes what a pane for another room shows |
| Interop.PostedMessageShown | chat-service/src/main.rs:193 | a posted message shows in its room's pane under the sender's name from the token |
| Interop.SystemNoticeInSystemRoom | client/src/components/ChatRoom.jsx:39-41 | a pane following room `system` shows the notices, under the name `System` |

## Left out

- Transports and timers: real `fetch`, `EventSource`, `setInterval` and wall-clock timing are not modelled. What a call resolved or rejected with is a parameter, and sources and timers are records with a live flag.
- Solid's reactivity: `SetRoom` models the effect rerun that a write of a different room triggers. Writing an equal value does not rerun it.
- JSX markup, styling, and the HTML `required` checks on the login inputs are not modelled.
- `JSON.parse` in `onmessage`: inbound events are taken as already-parsed records. A malformed payload, which throws inside the handler, is not modelled.
- Store.HydrateRooms: a stored text that is valid JSON but not a list of names is treated as unreadable. The real store would keep whatever value `JSON.parse` returned.
- Store.HydrateRooms: only the exact texts `null`, `false`, `0` and `""` become the empty list. The same values with blanks around them, and other spellings of zero such as `-0` or `0.0`, are treated as unreadable, although `JSON.parse` reads them as falsy too.
- ChatApi.ListRoomsResult: a 2xx body that is not the JSON of a list of strings gives `NotARoomList`. The real call would return whatever `response.json()` gave.
- RoomsJson: only JSON texts of lists of strings are read.
- RoomsJson: a `\u` escape naming a lone half of a surrogate pair makes the text unreadable, because Dafny strings hold no surrogates; a high half followed by the escape of a low half reads as the one character they encode.
- ChatRoom.ChatRoomPane.HandleSend, RoomsPanel.RoomsPanel.HandleCreateRoom and LoginForm.LoginForm.HandleLoginOrRegister run to completion with nothing interleaved at their `await`s: text typed, a room switched or a store written while a request is pending is not modelled.
- LoginForm.LoginForm.HandleLoginOrRegister: `loginUser` is taken to give a string token. A response without `token` would store `undefined`; that is not modelled.
- RoomsPanel.RoomsPanel.constructor: its invariant assumes that while the panel is mounted, no other component writes the store's room list. This matches the shell, which shows the login form and the panel at different times.
- client/src/api/auth.js and user-service/src/main.rs are not part of this model: registration and login are outcome parameters.
- UserDetail.jsx, index.jsx and vite.config.js are not part of this model: they are not mounted by the shell, or are bootstrap and build configuration.
- Url-encoding of the message form is not modelled. Fields are given decoded.
- `events_handler`, `main`'s router, and the sleep loop that repeats `cleanup_inactive_users` are not modelled. One pass is `CleanupPass`.
- The mutex sections are not modelled: selection and removal in a cleanup pass are taken to run with nothing in between.
- The broadcast channel's capacity and its lag are not modelled.
- ChatServer.ChatServer.BroadcastSystemMessage: a message is recorded as sent even when no subscriber is listening, in which case `send` drops it.
- ChatServer.DecodeJwtFromHeader: a missing `TOKEN_SECRET` makes the service panic; that is not modelled. Verification is the `verify` parameter.
- ChatServer.ChatServer.ListRooms: the order of a `HashSet` iteration is not modelled. Any order is allowed.
- The service's clock is modelled in milliseconds; `SystemTime` is finer.
- There are no findings: nothing verified here shows the code contradicting an evident intent.
