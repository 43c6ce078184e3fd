/**
 * The shared vocabulary of the watch-party client (types.ts): roles, room
 * modes, users, videos, the player and room state, and the payload carried by
 * the `player:action` / `player:sync` events.
 *
 * JavaScript numbers that hold playback positions are only compared and
 * assigned, so they are modelled as `real`; wall-clock milliseconds
 * (`Date.now()`) are modelled as `int`.
 */
module Types {

  datatype Option<+T> = None | Some(value: T)

  /** Whether a user may always control playback or only in a shared room. */
  datatype UserRole = Host | Guest

  /** Who may control playback in a room. */
  datatype RoomMode = HostOnly | Shared

  datatype User = User(id: string, username: string, role: UserRole, status: Option<string>)

  datatype Video = Video(id: string, title: string, thumbnailUrl: string, duration: Option<string>)

  /** `videoId` is nullable in the source; `lastUpdated` is a wall-clock time in ms. */
  datatype PlayerState = PlayerState(
    videoId: Option<string>,
    isPlaying: bool,
    currentTime: real,
    lastUpdated: int)

  datatype RoomState = RoomState(
    id: string,
    users: seq<User>,
    playlist: seq<Video>,
    currentVideoIndex: nat,
    playerState: PlayerState,
    mode: RoomMode)

  /** The four action tags a sync event may carry. */
  datatype Action = Play | Pause | Seek | Sync

  /** A `player:action` / `player:sync` payload; `videoId` is optional. */
  datatype SyncEventPayload = SyncEventPayload(action: Action, timestamp: real, videoId: Option<string>)

  /** JavaScript truthiness of an optional string: absent and "" are both falsy. */
  predicate Truthy(s: Option<string>)
  {
    s.Some? && s.value != ""
  }
}
