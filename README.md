# Vibesync playback synchronisation, modelled in Dafny

Vibesync is a browser demo of a watch party: the people in a room watch one
embedded video and chat. This project models the client-side playback
synchronisation core:

- `Types.dfy` (module `Types`) has the vocabulary of `types.ts`: user roles,
  room modes, users, videos, the player and room state, and the sync event
  payload.
- `Socket.dfy` (module `Socket`) models the in-process loopback socket. It is
  a class whose listener map goes from an event name to an ordered list of
  handler ids. `On` appends, `Off` filters, `Broadcast` calls each handler in
  order, and `Emit` passes its event straight to `Broadcast`. The
  specification functions `Subscribe`, `Unsubscribe` and `Without` describe
  the map after each call, and lemmas give their algebra: filtering keeps
  order, `on` then `off` restores the list, and `on` does not deduplicate.
- `VideoPlayer.dfy` (module `VideoPlayer`) models the video component:
  - the playback authority rule;
  - the choice of widget commands for an incoming sync event, with its
    strict 2-second drift threshold;
  - the initial sync when the widget becomes ready;
  - the payload emitted when the widget's own state changes;
  - the heartbeat gate.

  The widget is a class with a position and a playing flag. It also has a
  ghost log of the commands it has received, which exists only to state which
  commands are sent. `HandleSync` and `OnPlayerReady` drive it step by
  step. Their contracts equal the effect of the command list given by the
  pure functions `SyncCommands` and `ReadyCommands`, and lemmas state what
  that effect means.
- `Room.dfy` (module `Room`) models the room-state updaters of `App.tsx` as
  pure functions from the previous `RoomState`:
  - applying a `player:sync` event;
  - appending to the playlist;
  - advancing to the next video, which wraps around the playlist and also
    returns the payload it emits;
  - the `player:action` payload of the control buttons.

  Where the source would throw a `TypeError` by reading `.id` of a missing
  playlist entry, the model returns `None`: nothing changes and nothing is
  emitted. In the application that case does not arise: the playlist starts
  with one video (App.tsx:29) and is only ever appended to (App.tsx:99).

The loopback does no validation. An emitted event goes back to every handler
registered under the same name, the sender's own handlers included. The
client emits its control actions as `player:action` (App.tsx:89,
components/VideoPlayer.tsx:115), while its only player-event subscription is
`player:sync` (App.tsx:62, components/VideoPlayer.tsx:146); the other one is
`chat:message`. So in the code as written, no
control action ever reaches a sync handler. `Room.ControlActionsReachNoSyncHandler`
states this for the client's subscriptions, and `Room.ControlActionEcho`
emits a control payload under `player:action` on a socket carrying them and
gets no delivery. The model keeps the loopback
exactly as written and adds no translation or rejection that a server might
do.

Positions and timestamps are JavaScript numbers that are only compared and
assigned, so they are `real`. `lastUpdated` (milliseconds from `Date.now()`)
is an `int`. `currentVideoIndex` is a `nat`: the code only ever stores 0 or
`(i + 1) % len` there.

## Model

| member | source | states |
|---|---|---|
| `Socket.Without` | services/mockSocketService.ts:26 | the filtered list has no occurrence of the removed handler and is no longer than the original. Every other handler keeps its number of occurrences, and nothing new appears |
| `Socket.Subscribe` | services/mockSocketService.ts:16-21 | after `on(e, cb)`, the list for `e` is the old list, or empty if `e` had no entry, with `cb` appended at the end. The key set gains `e`, and every other event's list is unchanged |
| `Socket.Unsubscribe` | services/mockSocketService.ts:23-28 | after `off(e, cb)`, the list for `e` is the old list with `cb` filtered out. The key set is unchanged and so is every other event's list. An event with no entry leaves the whole map unchanged |
| `Socket.WithoutAbsent` | services/mockSocketService.ts:26 | filtering out a handler that is not in the list returns the list unchanged |
| `Socket.WithoutAppend` | services/mockSocketService.ts:26 | filtering distributes over concatenation, so the handlers that remain keep their original relative order |
| `Socket.WithoutIdempotent` | services/mockSocketService.ts:23-28 | removing a handler twice gives the same list as removing it once |
| `Socket.SubscribeTwiceCountsTwice` | services/mockSocketService.ts:16-21 | registering the same handler twice adds two occurrences of it; there is no deduplication |
| `Socket.SubscribeUnsubscribeRestores` | services/mockSocketService.ts:16-28 | `on(e, cb)` then `off(e, cb)`, for a `cb` not already registered for `e`, restores the handler list of `e`. A missing entry becomes an empty list, and nothing else changes |
| `Socket.MockSocketService.constructor` | services/mockSocketService.ts:9 | a new service starts with no listeners |
| `Socket.MockSocketService.On` | services/mockSocketService.ts:16-21 | creates the entry if missing, then appends; the new map is `Subscribe` of the old one |
| `Socket.MockSocketService.Off` | services/mockSocketService.ts:23-28 | overwrites an existing entry with its filtered list; the new map is `Unsubscribe` of the old one |
| `Socket.MockSocketService.Broadcast` | services/mockSocketService.ts:44-49 | calls each registered handler of the event once per registration, in registration order, each with the same data. An event with no entry calls nothing |
| `Socket.MockSocketService.Emit` | services/mockSocketService.ts:31-42 | the loopback: exactly the handlers registered under the same event name get the unchanged data, in order, the sender's included, with no validation |
| `VideoPlayer.CanControl` | components/VideoPlayer.tsx:37 | a host always controls; a guest controls exactly in a shared room; in a host-only room only the host controls |
| `VideoPlayer.SyncCommands` | components/VideoPlayer.tsx:129-143 | the commands for an event: a play command exactly for `play`, and a pause command exactly for `pause`. A seek to the timestamp (with seek-ahead allowed) is sent exactly for `pause`, for `seek`, and for `play` when the drift is strictly above 2 s. No seek goes anywhere else, and `sync` sends nothing at all. At most two commands are sent, with at most one seek. Every command but the last is a seek, and for `play` and `pause` the last one is the play or pause |
| `VideoPlayer.PlayReconciles` | components/VideoPlayer.tsx:130-135 | on `play`, the widget seeks exactly when the drift is strictly greater than 2 seconds. Afterwards it is playing and within 2 seconds of the timestamp. Without a seek it keeps its position |
| `VideoPlayer.PauseReconciles` | components/VideoPlayer.tsx:136-139 | on `pause`, the widget always ends exactly at the timestamp, paused |
| `VideoPlayer.SeekReconciles` | components/VideoPlayer.tsx:140-142 | on `seek`, the widget ends at the timestamp with its playing flag unchanged |
| `VideoPlayer.SeekIdempotent` | components/VideoPlayer.tsx:140-142 | handling the same `seek` twice leaves the widget as handling it once |
| `VideoPlayer.OtherActionsIgnored` | components/VideoPlayer.tsx:129-143 | a `sync` action sends no command (the switch has no default) and leaves the widget unchanged |
| `VideoPlayer.ReadyCommands` | components/VideoPlayer.tsx:98-103 | the initial sync is exactly two commands: first a seek to `initialTime` (the omitted `allowSeekAhead` taken as false), then a play if the room is playing and a pause if it is not |
| `VideoPlayer.ReadyReconciles` | components/VideoPlayer.tsx:95-104 | after the initial sync the widget is at `initialTime`, and it is playing exactly when the room's flag is set |
| `VideoPlayer.HeartbeatRuns` | components/VideoPlayer.tsx:152 | the heartbeat never runs while the widget is not ready or while the room is not playing, and always runs when both hold |
| `VideoPlayer.Widget.SeekTo` | components/VideoPlayer.tsx:132 | moves the position, keeps the playing flag, and logs the command |
| `VideoPlayer.Widget.PlayVideo` | components/VideoPlayer.tsx:134 | sets the widget playing, keeps the position, and logs the command |
| `VideoPlayer.Widget.PauseVideo` | components/VideoPlayer.tsx:138 | sets the widget paused, keeps the position, and logs the command |
| `VideoPlayer.HandleSync` | components/VideoPlayer.tsx:123-144 | with no widget or a widget not ready, no command is sent and the state is unchanged. Otherwise the widget receives exactly the commands for the action at its current position. After `play` it is playing within 2 s of the timestamp; after `pause` it is at the timestamp and paused; after `seek` it is at the timestamp with its flag unchanged |
| `VideoPlayer.OnPlayerReady` | components/VideoPlayer.tsx:95-104 | marks the component ready, sends a seek to `initialTime` and then a play or a pause. The widget ends at `initialTime`, playing iff `isPlaying`, and the heartbeat then runs iff the widget plays |
| `VideoPlayer.OnPlayerStateChange` | components/VideoPlayer.tsx:107-119 | emits exactly when the user may control and the state code is 1 or 2. It emits `play` for 1 and `pause` for 2, with the widget's current time and the component's video id |
| `Room.ApplySync` | App.tsx:46-56 | sets `isPlaying` iff the action is `play`, and sets `currentTime` to the event's timestamp. It takes the event's video id when present and non-empty, and keeps the old one otherwise. `lastUpdated` and every room field other than the player state are unchanged |
| `Room.NonPlayEventStops` | App.tsx:51 | a `pause`, `seek` or `sync` event leaves the room marked as not playing |
| `Room.ApplySyncIdempotent` | App.tsx:46-56 | applying the same sync event twice gives the same state as applying it once |
| `Room.LaterSyncWins` | App.tsx:46-56 | of two events applied in order, the second decides the playing flag and the position, and `lastUpdated` is the same as after the second alone. The first survives only in the video id, and only when the second carries none; then the id is the one the first alone would give |
| `Room.AddToQueue` | App.tsx:96-101 | the playlist grows by one, the old playlist is its prefix, and the new video is last; nothing else changes |
| `Room.NextIndex` | App.tsx:104 | the next index is always inside the playlist. It is `i + 1` before the last entry and 0 after the last entry |
| `Room.Advance` | App.tsx:104 | `handleNextVideo`'s index step applied `k` times. The result is inside the playlist after at least one step, or whenever the start index is |
| `Room.AdvanceIsOffset` | App.tsx:104 | advancing `k` times from a valid index, for any `k`, gives `(i + k) % len` |
| `Room.AdvanceFullCycle` | App.tsx:104 | advancing any whole number of rounds of the playlist (`rounds * len` steps) returns to the start index |
| `Room.NextVideo` | App.tsx:103-118 | an empty playlist changes nothing and emits nothing. Otherwise the index moves to `NextIndex`, and the player state gets that entry's id, time 0 and playing, with `lastUpdated` kept. Nothing else changes, and the emitted payload is `play` at 0 with that entry's id |
| `Room.NextVideoEchoAgrees` | App.tsx:107-117 | the echo of `handleNextVideo`'s payload, applied as a sync event, reproduces the state `handleNextVideo` set |
| `Room.ValidIndex` | App.tsx:92 | the room invariant that the current index points into the playlist, which makes the read of the current entry safe; it implies a non-empty playlist |
| `Room.UpdatersKeepValidIndex` | App.tsx:46-118 | applying a sync event, appending to the queue and advancing all keep the current index inside the playlist |
| `Room.ControlPayload` | App.tsx:87-94 | carries the given action and time as `timestamp`, and the current playlist entry's id as `videoId`. It is absent exactly when the index is outside the playlist |
| `Room.TogglePayload` | App.tsx:225 | the toggle sends `pause` when the room is playing and `play` when it is not, at the room's current time |
| `Room.ToggleEchoFlips` | App.tsx:225 | the echo of the toggle's payload flips the playing flag and keeps the position. When the entry's id is non-empty, that entry becomes the active video |
| `Room.ClientListeners` | App.tsx:62-63 | the client's subscriptions (App.tsx:62-63, then components/VideoPlayer.tsx:146) register handlers for exactly `player:sync` and `chat:message`. `player:sync` has the room's handler and then the player's, and `chat:message` has the chat handler |
| `Room.ControlActionEcho` | App.tsx:89-93 | a control payload emitted as `player:action` on a socket set up with the client's three subscriptions reaches no handler at all |
| `Room.ControlActionsReachNoSyncHandler` | App.tsx:62-63 | with the client's subscriptions, `player:sync` has the room's handler and then the player's handler. `player:action`, the name control actions are emitted under, has no handler |

## Left out

- Rendering and JSX in every file; the architecture documentation component, which is markup only.
- The chat component and message construction: UI, with `Date.now()` ids; its only logic is a blank-input guard.
- The recommendation service: a call to an external API, `JSON.parse` and random ids.
- The AI-suggest flow of `App.tsx` (`handleAskAI`), which depends on that service.
- The `setTimeout` latency of `emit`: `Emit` calls `Broadcast` immediately.
- The random simulated chat reactions of the loopback (`handleSimulatedChat`): random and timer-driven.
- The `setInterval` body of the heartbeat: only its gating condition is modelled (`HeartbeatRuns`).
- Socket.MockSocketService.Broadcast: it returns the ordered list of handler calls instead of running the handlers. What a handler does is modelled separately (`Room.ApplySync`, `VideoPlayer.HandleSync`).
- The YouTube IFrame API: script loading, player construction, `loadVideoById` on a video change, and `destroy`. The widget is abstracted as a position and a playing flag, and its position does not advance with time.
- React semantics: effect re-runs and dependencies, stale closures (for example, `handleNextVideo` computes the next index from the rendered state, not from `prev`), and `useState` batching.
- The random initial user and room ids and the `Date.now()` timestamps.
- `room:join` and the welcome message of `handleJoin`: an emit with no listener, plus chat.
- JavaScript `NaN` and infinite timestamps: positions are real numbers.
