/**
 * The room-state updaters and outgoing control payloads of the client
 * (App.tsx): applying an incoming `player:sync` event, appending to the
 * playlist, advancing to the next video, and building the `player:action`
 * payload of the play/pause toggle.
 *
 * Each updater is the pure `prev => next` function handed to `setRoomState`;
 * where the handler also emits, the emitted payload is returned beside the
 * new state. A handler that would throw (indexing past the playlist) is
 * modelled as returning `None`: no state change and nothing emitted.
 */
module Room {
  import opened Types
  import Socket

  /** `handlePlayerSync`'s updater: replaces the player state from the event. */
  function ApplySync(prev: RoomState, data: SyncEventPayload): (next: RoomState)
    ensures next.playerState.isPlaying <==> data.action == Play
    ensures next.playerState.currentTime == data.timestamp
    ensures Truthy(data.videoId) ==> next.playerState.videoId == data.videoId
    ensures !Truthy(data.videoId) ==> next.playerState.videoId == prev.playerState.videoId
    ensures next.playerState.lastUpdated == prev.playerState.lastUpdated
    ensures next == prev.(playerState := next.playerState)
  {
    prev.(playerState := prev.playerState.(
      isPlaying := data.action == Play,
      currentTime := data.timestamp,
      videoId := if Truthy(data.videoId) then data.videoId else prev.playerState.videoId))
  }

  /** A `seek` or `pause` event leaves the room marked as not playing. */
  lemma NonPlayEventStops(prev: RoomState, data: SyncEventPayload)
    requires data.action != Play
    ensures !ApplySync(prev, data).playerState.isPlaying
  {
  }

  /** Applying the same event twice gives the same state as applying it once. */
  lemma ApplySyncIdempotent(prev: RoomState, data: SyncEventPayload)
    ensures ApplySync(ApplySync(prev, data), data) == ApplySync(prev, data)
  {
  }

  /**
   * Of two events applied in order, the later one decides the playing flag
   * and the position; the earlier one survives only in the video id, and
   * only when the later one carries none.
   */
  lemma LaterSyncWins(prev: RoomState, first: SyncEventPayload, second: SyncEventPayload)
    ensures var both := ApplySync(ApplySync(prev, first), second);
            both == ApplySync(prev, second).(playerState := both.playerState)
            && both.playerState.isPlaying == ApplySync(prev, second).playerState.isPlaying
            && both.playerState.currentTime == second.timestamp
            && both.playerState == ApplySync(prev, second).playerState.(videoId := both.playerState.videoId)
            && (Truthy(second.videoId) ==> both == ApplySync(prev, second))
            && (!Truthy(second.videoId) ==> both.playerState.videoId == ApplySync(prev, first).playerState.videoId)
  {
  }

  /** `handleQueueAdd`'s updater: appends the video and changes nothing else. */
  function AddToQueue(prev: RoomState, video: Video): (next: RoomState)
    ensures |next.playlist| == |prev.playlist| + 1
    ensures next.playlist[..|prev.playlist|] == prev.playlist
    ensures next.playlist[|prev.playlist|] == video
    ensures next == prev.(playlist := next.playlist)
  {
    prev.(playlist := prev.playlist + [video])
  }

  /** `(i + 1) % len`: the index after `i`, wrapping to the start after the last entry. */
  function NextIndex(i: nat, len: nat): (j: nat)
    requires len > 0
    ensures j < len
    ensures i + 1 < len ==> j == i + 1
    ensures i + 1 == len ==> j == 0
  {
    (i + 1) % len
  }

  /** The index reached from `i` after advancing `k` times. */
  function Advance(i: nat, len: nat, k: nat): (j: nat)
    requires len > 0
    ensures k > 0 ==> j < len
    ensures i < len ==> j < len
  {
    if k == 0 then i else NextIndex(Advance(i, len, k - 1), len)
  }

  /** One more multiple of `n` is at least `n` more. */
  lemma MulStep(a: nat, b: nat, n: nat)
    requires a < b
    ensures a * n + n <= b * n
  {
    var d := b - a - 1;
    assert b == a + 1 + d;
    assert b * n == a * n + n + d * n;
  }

  /** `y % n` is the remainder of any division of `y` by `n`. */
  lemma ModUnique(y: nat, n: nat, q: nat, r: nat)
    requires n > 0 && r < n && y == q * n + r
    ensures y % n == r
  {
    var q', r' := y / n, y % n;
    assert y == q' * n + r';
    if q' > q {
      MulStep(q, q', n);
    } else if q' < q {
      MulStep(q', q, n);
    }
  }

  /** Taking the remainder before adding one does not change the remainder after. */
  lemma ModSucc(x: nat, n: nat)
    requires n > 0
    ensures ((x % n) + 1) % n == (x + 1) % n
  {
    var q, r := x / n, x % n;
    assert x == q * n + r;
    if r + 1 < n {
      ModUnique(x + 1, n, q, r + 1);
      ModUnique(r + 1, n, 0, r + 1);
    } else {
      ModUnique(x + 1, n, q + 1, 0);
      ModUnique(r + 1, n, 1, 0);
    }
  }

  /** Advancing `k` times from a valid index moves `k` places around the playlist. */
  lemma {:induction false} AdvanceIsOffset(i: nat, len: nat, k: nat)
    requires i < len
    ensures Advance(i, len, k) == (i + k) % len
  {
    if k == 0 {
      ModUnique(i, len, 0, i);
    } else {
      AdvanceIsOffset(i, len, k - 1);
      ModSucc(i + k - 1, len);
    }
  }

  /** Advancing any whole number of rounds of the playlist comes back to the start. */
  lemma AdvanceFullCycle(i: nat, len: nat, rounds: nat)
    requires i < len
    ensures Advance(i, len, rounds * len) == i
  {
    AdvanceIsOffset(i, len, rounds * len);
    ModUnique(i + rounds * len, len, rounds, i);
  }

  /** The new room state of `handleNextVideo` together with the payload it emits. */
  datatype Advanced = Advanced(room: RoomState, emitted: SyncEventPayload)

  /**
   * `handleNextVideo`. On an empty playlist `(i + 1) % 0` is NaN and the
   * handler throws when it reads the entry's `id` (and the queued updater
   * throws again when it runs); the model returns `None` for that case. The
   * playlist is never empty in the application: it starts with one video
   * (App.tsx:29) and is only ever appended to (App.tsx:99). Otherwise the
   * index moves to the next entry, that entry starts playing from 0, and a
   * `play` at 0 for it is emitted.
   */
  function NextVideo(room: RoomState): (r: Option<Advanced>)
    ensures r.None? <==> room.playlist == []
    ensures r.Some? ==>
              var j := r.value.room.currentVideoIndex;
              && j < |room.playlist|
              && j == NextIndex(room.currentVideoIndex, |room.playlist|)
              && r.value.room.playerState
                 == room.playerState.(videoId := Some(room.playlist[j].id), currentTime := 0.0, isPlaying := true)
              && r.value.room == room.(currentVideoIndex := j, playerState := r.value.room.playerState)
              && r.value.emitted == SyncEventPayload(Play, 0.0, Some(room.playlist[j].id))
  {
    if room.playlist == [] then None
    else
      var nextIndex := NextIndex(room.currentVideoIndex, |room.playlist|);
      var nextVideo := room.playlist[nextIndex];
      Some(Advanced(
        room.(currentVideoIndex := nextIndex,
              playerState := room.playerState.(videoId := Some(nextVideo.id), currentTime := 0.0, isPlaying := true)),
        SyncEventPayload(Play, 0.0, Some(nextVideo.id))))
  }

  /**
   * The echo of the payload `handleNextVideo` emits, applied as a sync
   * event, reproduces the state `handleNextVideo` set.
   */
  lemma NextVideoEchoAgrees(room: RoomState)
    requires room.playlist != []
    ensures NextVideo(room).Some?
    ensures ApplySync(NextVideo(room).value.room, NextVideo(room).value.emitted) == NextVideo(room).value.room
  {
  }

  /** The room invariant: the current index points into the playlist. */
  function ValidIndex(room: RoomState): (b: bool)
    ensures b ==> room.playlist != []
  {
    room.currentVideoIndex < |room.playlist|
  }

  /** Applying a sync event, appending, and advancing all keep the index valid. */
  lemma UpdatersKeepValidIndex(room: RoomState, data: SyncEventPayload, video: Video)
    requires ValidIndex(room)
    ensures ValidIndex(ApplySync(room, data))
    ensures ValidIndex(AddToQueue(room, video))
    ensures NextVideo(room).Some? && ValidIndex(NextVideo(room).value.room)
  {
  }

  /**
   * `handleControlAction`'s payload: the given time and the id of the
   * current playlist entry. With an index past the playlist, reading the
   * entry's `id` throws and nothing is emitted.
   */
  function ControlPayload(room: RoomState, action: Action, time: real): (r: Option<SyncEventPayload>)
    requires action != Sync
    ensures r.Some? <==> ValidIndex(room)
    ensures r.Some? ==> r.value.action == action && r.value.timestamp == time
    ensures r.Some? ==> r.value.videoId == Some(room.playlist[room.currentVideoIndex].id)
  {
    if room.currentVideoIndex < |room.playlist| then
      Some(SyncEventPayload(action, time, Some(room.playlist[room.currentVideoIndex].id)))
    else None
  }

  /** The play/pause button: `pause` when playing, `play` when not, at the room's position. */
  function TogglePayload(room: RoomState): (r: Option<SyncEventPayload>)
    ensures r.Some? <==> ValidIndex(room)
    ensures r.Some? ==> (r.value.action == Pause <==> room.playerState.isPlaying)
    ensures r.Some? ==> (r.value.action == Play <==> !room.playerState.isPlaying)
    ensures r.Some? ==> r.value.timestamp == room.playerState.currentTime
  {
    ControlPayload(room, if room.playerState.isPlaying then Pause else Play, room.playerState.currentTime)
  }

  /**
   * The echo of the toggle's payload flips the playing flag, keeps the
   * position, and makes the current entry the active video.
   */
  lemma ToggleEchoFlips(room: RoomState)
    requires ValidIndex(room)
    ensures TogglePayload(room).Some?
    ensures var next := ApplySync(room, TogglePayload(room).value);
            && next.playerState.isPlaying == !room.playerState.isPlaying
            && next.playerState.currentTime == room.playerState.currentTime
            && (room.playlist[room.currentVideoIndex].id != "" ==>
                  next.playerState.videoId == Some(room.playlist[room.currentVideoIndex].id))
  {
  }

  const PlayerSyncEvent := "player:sync"
  const PlayerActionEvent := "player:action"
  const ChatMessageEvent := "chat:message"

  /**
   * The subscriptions the client makes on a fresh socket: the room's sync
   * and chat handlers, then the player's sync handler.
   */
  function ClientListeners(roomSync: Socket.HandlerId, chat: Socket.HandlerId, playerSync: Socket.HandlerId)
    : (m: Socket.Listeners)
    ensures m.Keys == {PlayerSyncEvent, ChatMessageEvent}
    ensures Socket.HandlersOf(m, PlayerSyncEvent) == [roomSync, playerSync]
    ensures Socket.HandlersOf(m, ChatMessageEvent) == [chat]
  {
    assert PlayerSyncEvent != ChatMessageEvent;
    Socket.Subscribe(Socket.Subscribe(Socket.Subscribe(map[], PlayerSyncEvent, roomSync), ChatMessageEvent, chat),
                     PlayerSyncEvent, playerSync)
  }

  /**
   * Control actions are emitted as `player:action`, and the loopback echoes
   * an event under its own name, while the client only listens to
   * `player:sync`: no handler of the client receives its control actions.
   */
  lemma ControlActionsReachNoSyncHandler(roomSync: Socket.HandlerId, chat: Socket.HandlerId, playerSync: Socket.HandlerId)
    ensures Socket.HandlersOf(ClientListeners(roomSync, chat, playerSync), PlayerSyncEvent) == [roomSync, playerSync]
    ensures Socket.HandlersOf(ClientListeners(roomSync, chat, playerSync), PlayerActionEvent) == []
  {
    assert PlayerSyncEvent != ChatMessageEvent;
    assert PlayerActionEvent != PlayerSyncEvent;
    assert PlayerActionEvent != ChatMessageEvent;
  }

  /**
   * A control payload emitted on a socket that carries the client's
   * subscriptions is delivered to no handler: the loopback echoes it as
   * `player:action`, and nothing is registered under that name.
   */
  method ControlActionEcho(roomSync: Socket.HandlerId, chat: Socket.HandlerId, playerSync: Socket.HandlerId,
                           payload: SyncEventPayload)
    returns (calls: seq<Socket.Delivery<SyncEventPayload>>)
    ensures calls == []
  {
    var socket := new Socket.MockSocketService<SyncEventPayload>();
    socket.On(PlayerSyncEvent, roomSync);
    socket.On(ChatMessageEvent, chat);
    socket.On(PlayerSyncEvent, playerSync);
    assert socket.listeners == ClientListeners(roomSync, chat, playerSync);
    ControlActionsReachNoSyncHandler(roomSync, chat, playerSync);
    calls := socket.Emit(PlayerActionEvent, payload);
  }
}
