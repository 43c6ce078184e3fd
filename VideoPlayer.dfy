/**
 * Client-side reconciliation of the embedded video widget
 * (components/VideoPlayer.tsx): who may control playback, how an incoming
 * sync event is turned into widget commands, what a widget state change
 * emits, and the initial sync when the widget becomes ready.
 *
 * The widget is abstracted as an object with a playback position, a playing
 * flag and the list of commands it has been sent. Its position does not
 * advance on its own here: time passing is not modelled.
 */
module VideoPlayer {
  import opened Types

  /** Seconds of drift tolerated before a `play` event forces a seek. */
  const SyncThreshold: real := 2.0

  /** Widget state codes reported by `onStateChange`. */
  const StatePlaying: int := 1
  const StatePaused: int := 2

  /** Playback authority: a host always controls; a guest only in a shared room. */
  function CanControl(role: UserRole, mode: RoomMode): (r: bool)
    ensures role == Host ==> r
    ensures role == Guest ==> (r <==> mode == Shared)
    ensures mode == HostOnly ==> (r <==> role == Host)
  {
    role == Host || mode == Shared
  }

  function Abs(x: real): real
  {
    if x < 0.0 then -x else x
  }

  /** The commands the component sends to the widget. */
  datatype Command = SeekTo(seconds: real, allowSeekAhead: bool) | PlayVideo | PauseVideo

  /** What the component can observe and change about the widget. */
  datatype WidgetState = WidgetState(position: real, playing: bool)

  /** The effect of one command on the widget. */
  function Step(s: WidgetState, c: Command): WidgetState
  {
    match c
    case SeekTo(t, _) => s.(position := t)
    case PlayVideo => s.(playing := true)
    case PauseVideo => s.(playing := false)
  }

  /** The effect of a sequence of commands, applied in order. */
  function Run(s: WidgetState, cs: seq<Command>): WidgetState
    decreases |cs|
  {
    if cs == [] then s else Run(Step(s, cs[0]), cs[1..])
  }

  lemma {:induction false} RunAppend(s: WidgetState, a: seq<Command>, b: seq<Command>)
    ensures Run(s, a + b) == Run(Run(s, a), b)
    decreases |a|
  {
    if a == [] {
      assert a + b == b;
    } else {
      assert (a + b)[1..] == a[1..] + b;
      RunAppend(Step(s, a[0]), a[1..], b);
    }
  }

  /**
   * The commands `handleSync` sends for an event, given the widget's current
   * position. The switch has no default, so `sync` sends nothing.
   */
  function SyncCommands(action: Action, current: real, timestamp: real): (cs: seq<Command>)
    ensures PlayVideo in cs <==> action == Play
    ensures PauseVideo in cs <==> action == Pause
    ensures SeekTo(timestamp, true) in cs
            <==> action == Pause || action == Seek || (action == Play && Abs(current - timestamp) > SyncThreshold)
    ensures forall c :: c in cs && c.SeekTo? ==> c == SeekTo(timestamp, true)
    ensures |cs| <= 2
    ensures multiset(cs)[SeekTo(timestamp, true)] <= 1
    ensures forall k :: 0 <= k < |cs| - 1 ==> cs[k].SeekTo?
    ensures action == Play || action == Pause ==> |cs| > 0 && !cs[|cs| - 1].SeekTo?
    ensures action == Sync <==> cs == []
  {
    match action
    case Play =>
      (if Abs(current - timestamp) > SyncThreshold then [SeekTo(timestamp, true)] else []) + [PlayVideo]
    case Pause => [SeekTo(timestamp, true), PauseVideo]
    case Seek => [SeekTo(timestamp, true)]
    case Sync => []
  }

  /**
   * On `play` the widget seeks exactly when the drift is strictly above the
   * threshold, and ends up playing within the threshold of the timestamp;
   * when it does not seek it keeps its position.
   */
  lemma PlayReconciles(s: WidgetState, timestamp: real)
    ensures SeekTo(timestamp, true) in SyncCommands(Play, s.position, timestamp)
            <==> Abs(s.position - timestamp) > SyncThreshold
    ensures Run(s, SyncCommands(Play, s.position, timestamp)).playing
    ensures Abs(Run(s, SyncCommands(Play, s.position, timestamp)).position - timestamp) <= SyncThreshold
    ensures Run(s, SyncCommands(Play, s.position, timestamp))
            == if Abs(s.position - timestamp) > SyncThreshold then WidgetState(timestamp, true)
               else WidgetState(s.position, true)
  {
    var cs := SyncCommands(Play, s.position, timestamp);
    if Abs(s.position - timestamp) > SyncThreshold {
      assert cs == [SeekTo(timestamp, true), PlayVideo];
      RunAppend(s, [SeekTo(timestamp, true)], [PlayVideo]);
    } else {
      assert cs == [PlayVideo];
    }
  }

  /** On `pause` the widget always lands exactly on the timestamp, paused. */
  lemma PauseReconciles(s: WidgetState, timestamp: real)
    ensures Run(s, SyncCommands(Pause, s.position, timestamp)) == WidgetState(timestamp, false)
  {
    RunAppend(s, [SeekTo(timestamp, true)], [PauseVideo]);
  }

  /** On `seek` the widget lands on the timestamp and keeps its playing flag. */
  lemma SeekReconciles(s: WidgetState, timestamp: real)
    ensures Run(s, SyncCommands(Seek, s.position, timestamp)) == WidgetState(timestamp, s.playing)
  {
  }

  /** Seeking to the same timestamp twice leaves the same widget state as seeking once. */
  lemma SeekIdempotent(s: WidgetState, timestamp: real)
    ensures var once := Run(s, SyncCommands(Seek, s.position, timestamp));
            Run(once, SyncCommands(Seek, once.position, timestamp)) == once
  {
  }

  /** Any other action, such as `sync`, leaves the widget alone. */
  lemma OtherActionsIgnored(s: WidgetState, current: real, timestamp: real)
    ensures SyncCommands(Sync, current, timestamp) == []
    ensures Run(s, SyncCommands(Sync, current, timestamp)) == s
  {
  }

  /**
   * The commands of the initial sync in `onPlayerReady`: a seek, then play or
   * pause. The source calls `seekTo(initialTime)` without its second
   * argument; the omitted `allowSeekAhead` is taken as false.
   */
  function ReadyCommands(initialTime: real, isPlaying: bool): (cs: seq<Command>)
    ensures |cs| == 2 && cs[0] == SeekTo(initialTime, false)
    ensures PlayVideo in cs <==> isPlaying
    ensures PauseVideo in cs <==> !isPlaying
  {
    [SeekTo(initialTime, false), if isPlaying then PlayVideo else PauseVideo]
  }

  /**
   * After the initial sync the widget is at `initialTime`, and playing
   * exactly when the room says so.
   */
  lemma ReadyReconciles(s: WidgetState, initialTime: real, isPlaying: bool)
    ensures Run(s, ReadyCommands(initialTime, isPlaying)) == WidgetState(initialTime, isPlaying)
  {
    RunAppend(s, [SeekTo(initialTime, false)], [if isPlaying then PlayVideo else PauseVideo]);
  }

  /** The heartbeat interval runs only when the widget is ready and the room is playing. */
  function HeartbeatRuns(isReady: bool, isPlaying: bool): (r: bool)
    ensures !isReady ==> !r
    ensures !isPlaying ==> !r
    ensures isReady && isPlaying ==> r
  {
    isReady && isPlaying
  }

  /** The embedded video widget. */
  class Widget {
    var position: real
    var playing: bool
    /** Every command sent to the widget so far, oldest first (a specification device only). */
    ghost var issued: seq<Command>

    function State(): WidgetState
      reads this
    {
      WidgetState(position, playing)
    }

    constructor (position: real, playing: bool)
      ensures State() == WidgetState(position, playing) && issued == []
    {
      this.position := position;
      this.playing := playing;
      issued := [];
    }

    /** `getCurrentTime()`. */
    function CurrentTime(): real
      reads this
    {
      position
    }

    method SeekTo(seconds: real, allowSeekAhead: bool)
      modifies this
      ensures State() == Step(old(State()), Command.SeekTo(seconds, allowSeekAhead))
      ensures issued == old(issued) + [Command.SeekTo(seconds, allowSeekAhead)]
    {
      position := seconds;
      issued := issued + [Command.SeekTo(seconds, allowSeekAhead)];
    }

    method PlayVideo()
      modifies this
      ensures State() == Step(old(State()), Command.PlayVideo)
      ensures issued == old(issued) + [Command.PlayVideo]
    {
      playing := true;
      issued := issued + [Command.PlayVideo];
    }

    method PauseVideo()
      modifies this
      ensures State() == Step(old(State()), Command.PauseVideo)
      ensures issued == old(issued) + [Command.PauseVideo]
    {
      playing := false;
      issued := issued + [Command.PauseVideo];
    }
  }

  /**
   * `handleSync`: with no widget or a widget that is not ready, nothing
   * happens; otherwise the widget is sent `SyncCommands` for the event and
   * its current position.
   */
  method HandleSync(player: Widget?, isReady: bool, data: SyncEventPayload)
    modifies player
    ensures player != null && isReady ==>
              player.issued == old(player.issued) + SyncCommands(data.action, old(player.position), data.timestamp)
              && player.State() == Run(old(player.State()), SyncCommands(data.action, old(player.position), data.timestamp))
    ensures player != null && !isReady ==> player.issued == old(player.issued) && player.State() == old(player.State())
    ensures player != null && isReady && data.action == Play ==>
              player.playing && Abs(player.position - data.timestamp) <= SyncThreshold
    ensures player != null && isReady && data.action == Pause ==>
              player.position == data.timestamp && !player.playing
    ensures player != null && isReady && data.action == Seek ==>
              player.position == data.timestamp && player.playing == old(player.playing)
  {
    if player == null || !isReady {
      return;
    }
    var currentTime := player.CurrentTime();
    ghost var s0 := player.State();
    match data.action {
      case Play =>
        if Abs(currentTime - data.timestamp) > SyncThreshold {
          player.SeekTo(data.timestamp, true);
        }
        player.PlayVideo();
        PlayReconciles(s0, data.timestamp);
      case Pause =>
        player.SeekTo(data.timestamp, true);
        player.PauseVideo();
        PauseReconciles(s0, data.timestamp);
      case Seek =>
        player.SeekTo(data.timestamp, true);
      case Sync =>
    }
  }

  /**
   * `onPlayerReady`: marks the component ready and syncs the widget to the
   * room's position and playing flag. Afterwards the heartbeat runs exactly
   * when the widget is playing.
   */
  method OnPlayerReady(target: Widget, initialTime: real, isPlaying: bool) returns (isReady: bool)
    modifies target
    ensures isReady
    ensures target.issued == old(target.issued) + ReadyCommands(initialTime, isPlaying)
    ensures target.State() == WidgetState(initialTime, isPlaying)
    ensures HeartbeatRuns(isReady, isPlaying) <==> target.playing
  {
    isReady := true;
    target.SeekTo(initialTime, false);
    if isPlaying {
      target.PlayVideo();
    } else {
      target.PauseVideo();
    }
  }

  /**
   * `onPlayerStateChange`: the `player:action` payload to emit for a widget
   * state code, if any. Nothing is emitted without control authority or for
   * a code other than playing (1) and paused (2).
   */
  method OnPlayerStateChange(role: UserRole, mode: RoomMode, target: Widget, state: int, videoId: string)
    returns (emitted: Option<SyncEventPayload>)
    ensures emitted.Some? <==> CanControl(role, mode) && (state == StatePlaying || state == StatePaused)
    ensures emitted.Some? ==> emitted.value.timestamp == target.position
    ensures emitted.Some? ==> emitted.value.videoId == Some(videoId)
    ensures emitted.Some? ==> (emitted.value.action == Play <==> state == StatePlaying)
    ensures emitted.Some? ==> (emitted.value.action == Pause <==> state == StatePaused)
  {
    if !CanControl(role, mode) {
      return None;
    }
    var time := target.CurrentTime();
    if state == StatePlaying {
      emitted := Some(SyncEventPayload(Play, time, Some(videoId)));
    } else if state == StatePaused {
      emitted := Some(SyncEventPayload(Pause, time, Some(videoId)));
    } else {
      emitted := None;
    }
  }
}
