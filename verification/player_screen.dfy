/**
 `PlayerScreen`: the `Player.Listener` the screen registers on the player,
 and what the screen draws from the view model's state (spinner, title,
 playlist rows) together with the taps that call back into `playVideo`.
 */
module PlayerScreen {
  import opened Options
  import opened VideoItems
  import opened Media
  import opened PlayerViewModel

  /** Media3's `Player.STATE_*` codes as delivered to `onPlaybackStateChanged`. */
  const StateIdle: int := 1
  const StateBuffering: int := 2
  const StateReady: int := 3
  const StateEnded: int := 4

  /** Playback position, in milliseconds, from which a player event hides the title. */
  const HideTitleFromMs: int := 200

  /** The callbacks the listener overrides, with the arguments it reads. */
  datatype PlayerEvent =
    | IsPlayingChanged(isPlaying: bool)
      /** `onEvents`, carrying `player.currentPosition` at delivery time. */
    | Events(position: int)
    | MediaItemTransition(mediaItem: Option<MediaItem>, reason: int)
    | PlaybackStateChanged(state: int)

  /** `onIsPlayingChanged` only calls the default implementation. */
  function OnIsPlayingChanged(s: State, isPlaying: bool): (r: State)
    ensures r == s
  {
    s
  }

  /** `onEvents`: a position of at least 200 ms hides the title; nothing else changes. */
  function OnEvents(s: State, position: int): (r: State)
    ensures position >= HideTitleFromMs ==> !r.visibleTitle
    ensures position < HideTitleFromMs ==> r == s
    ensures r.visibleTitle ==> s.visibleTitle
    ensures r.(visibleTitle := s.visibleTitle) == s
  {
    if position >= HideTitleFromMs then s.(visibleTitle := false) else s
  }

  /** `onMediaItemTransition`: whatever the item and reason, the title is shown again. */
  function OnMediaItemTransition(s: State, mediaItem: Option<MediaItem>, reason: int): (r: State)
    ensures r.visibleTitle
    ensures r.(visibleTitle := s.visibleTitle) == s
  {
    s.(visibleTitle := true)
  }

  /**
   `onPlaybackStateChanged`: idle and buffering raise the loading flag,
   ready and ended lower it; any other code falls through the `when`.
   */
  function OnPlaybackStateChanged(s: State, state: int): (r: State)
    ensures state == StateIdle || state == StateBuffering ==> r.isPlayerLoading
    ensures state == StateReady || state == StateEnded ==> !r.isPlayerLoading
    ensures state !in {StateIdle, StateBuffering, StateReady, StateEnded} ==> r == s
    ensures r.(isPlayerLoading := s.isPlayerLoading) == s
  {
    if state == StateIdle || state == StateBuffering then s.(isPlayerLoading := true)
    else if state == StateReady || state == StateEnded then s.(isPlayerLoading := false)
    else s
  }

  /**
   One callback delivered to the listener. The listener writes only the two
   flags: the playlist, the current video and the player are left alone.
   */
  function Step(s: State, e: PlayerEvent): (r: State)
    ensures r.videos == s.videos && r.currentVideo == s.currentVideo && r.player == s.player
    ensures e.Events? || e.MediaItemTransition? ==> r.isPlayerLoading == s.isPlayerLoading
    ensures e.PlaybackStateChanged? || e.IsPlayingChanged? ==> r.visibleTitle == s.visibleTitle
  {
    match e
    case IsPlayingChanged(playing) => OnIsPlayingChanged(s, playing)
    case Events(position) => OnEvents(s, position)
    case MediaItemTransition(item, reason) => OnMediaItemTransition(s, item, reason)
    case PlaybackStateChanged(state) => OnPlaybackStateChanged(s, state)
  }

  /** No callback can move the current video out of the playlist. */
  lemma StepPreservesValid(s: State, e: PlayerEvent)
    requires Valid(s)
    ensures Valid(Step(s, e))
  {
  }

  /** Every callback is idempotent: delivering it twice is delivering it once. */
  lemma StepIdempotent(s: State, e: PlayerEvent)
    ensures Step(Step(s, e), e) == Step(s, e)
  {
  }

  /** Player callbacks and `playVideo` write disjoint parts of the state, so they commute. */
  lemma StepCommutesWithPlayVideo(s: State, e: PlayerEvent, uri: Uri)
    ensures Step(PlayVideo(s, uri), e) == PlayVideo(Step(s, e), uri)
  {
  }

  /** One playlist row: the entry and whether its card is drawn as playing. */
  datatype Row = Row(item: VideoItem, isCurrentPlaying: bool)

  /** What the screen shows: the progress indicator, the title text if any, and the rows. */
  datatype Screen = Screen(spinner: bool, title: Option<string>, rows: seq<Row>)

  /**
   The composition of `PlayerScreen` for a given state. The spinner follows
   the loading flag; the title is drawn only while it is visible and there is
   a current video, and then it is that video's name; a row is marked playing
   exactly when its entry equals the current video as a data class.
   */
  function Render(s: State): (r: Screen)
    ensures r.spinner <==> s.isPlayerLoading
    ensures r.title.Some? <==> s.visibleTitle && s.currentVideo.Some?
    ensures r.title.Some? ==> r.title.value == s.currentVideo.value.name
    ensures |r.rows| == |s.videos|
    ensures forall k :: 0 <= k < |r.rows| ==>
      r.rows[k].item == s.videos[k] && (r.rows[k].isCurrentPlaying <==> s.currentVideo == Some(s.videos[k]))
  {
    Screen(
      s.isPlayerLoading,
      if s.visibleTitle && s.currentVideo.Some? then Some(s.currentVideo.value.name) else None,
      seq(|s.videos|, k requires 0 <= k < |s.videos| => Row(s.videos[k], s.currentVideo == Some(s.videos[k]))))
  }

  /**
   A tap on row `k` plays that row's URI. The current video afterwards has
   that URI, and row `k` is drawn as playing exactly when the first entry
   with its URI is structurally equal to it.
   */
  function TapRow(s: State, k: nat): (r: State)
    requires k < |s.videos|
    ensures r == PlayVideo(s, s.videos[k].contentUri)
    ensures r.player.active == Some(FromUri(s.videos[k].contentUri))
    ensures r.videos == s.videos
    ensures r.currentVideo.Some? && r.currentVideo.value.contentUri == s.videos[k].contentUri
    ensures forall i :: FirstMatch(s.videos, s.videos[k].contentUri, i) ==>
      (Render(r).rows[k].isCurrentPlaying <==> s.videos[i] == s.videos[k])
  {
    var uri := s.videos[k].contentUri;
    PlayVideoFound(s, uri, k);
    PlayVideo(s, uri)
  }

  /** The two buttons above the playlist. */
  datatype ClipButton = PlayFirstClip | PlaySecondClip

  /** The URI each button passes to `playVideo`. */
  function ClipUri(b: ClipButton): Uri
  {
    match b
    case PlayFirstClip => BunnyUri
    case PlaySecondClip => FunUri
  }

  /** Pressing a button plays its fixed clip, listed or not. */
  function PressButton(s: State, b: ClipButton): (r: State)
    ensures r == PlayVideo(s, ClipUri(b))
    ensures r.player.active == Some(FromUri(ClipUri(b)))
    ensures r.videos == s.videos
    ensures (exists k :: 0 <= k < |s.videos| && s.videos[k].contentUri == ClipUri(b)) ==>
      r.currentVideo.Some? && r.currentVideo.value.contentUri == ClipUri(b)
    ensures (forall k :: 0 <= k < |s.videos| ==> s.videos[k].contentUri != ClipUri(b)) ==>
      r.currentVideo == s.currentVideo
  {
    match FindIndex(s.videos, ClipUri(b))
    case None => PlayVideo(s, ClipUri(b))
    case Some(k) =>
      PlayVideoFound(s, ClipUri(b), k);
      PlayVideo(s, ClipUri(b))
  }

}
