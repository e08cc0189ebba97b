/**
 `PlayerViewModel`: the observable UI state, the seeded playlist, and the
 one user operation, `playVideo`. Compose's mutable states become fields
 of an immutable record; every operation returns the next record.
 */
module PlayerViewModel {
  import opened Options
  import opened VideoItems
  import opened Media

  /** The view model's state together with the player it owns. */
  datatype State = State(
    videos: seq<VideoItem>,
    currentVideo: Option<VideoItem>,
    isPlayerLoading: bool,
    visibleTitle: bool,
    player: Player)

  const BunnyUri: Uri := "http://commondatastorage.googleapis.com/gtv-videos-bucket/sample/BigBuckBunny.mp4"
  const FunUri: Uri := "https://commondatastorage.googleapis.com/gtv-videos-bucket/sample/ForBiggerFun.mp4"

  /** The first entry of each seeded pair. */
  const Bunny: VideoItem := NewVideoItem(BunnyUri, FromUri(BunnyUri), "Bunny")
  /** The second entry of each seeded pair. */
  const Fun: VideoItem := NewVideoItem(FunUri, FromUri(FunUri), "Some Random Stuff")

  /** How many times `createFakeList` adds the pair. */
  const FakeRepeat: nat := 3

  /**
   The state right after the property initialisers have run and before
   the `init` block: empty playlist, no current item, no spinner, title shown.
   */
  function Constructed(player: Player): (s: State)
    ensures s.videos == [] && s.currentVideo == None
    ensures !s.isPlayerLoading && s.visibleTitle
    ensures s.player == player
  {
    State([], None, false, true, player)
  }

  /** The list `repeat(n)` builds by adding Bunny and then Fun on every round. */
  function FakeVideos(n: nat): (r: seq<VideoItem>)
    ensures |r| == 2 * n
    ensures forall k :: 0 <= k < |r| ==> r[k] == (if k % 2 == 0 then Bunny else Fun)
  {
    if n == 0 then [] else FakeVideos(n - 1) + [Bunny, Fun]
  }

  /** `fakeVideos.map { it.mediaItem }`. */
  function MediaItemsOf(videos: seq<VideoItem>): (r: seq<MediaItem>)
    ensures |r| == |videos|
    ensures forall k :: 0 <= k < |r| ==> r[k] == videos[k].mediaItem
  {
    if videos == [] then [] else [videos[0].mediaItem] + MediaItemsOf(videos[1..])
  }

  /**
   `createFakeList`: publishes the seeded list, makes its first entry the
   current video, and queues the entries' media items on the player.
   */
  function CreateFakeList(s: State): (r: State)
    ensures |r.videos| == 2 * FakeRepeat
    ensures forall k :: 0 <= k < |r.videos| ==> r.videos[k] == (if k % 2 == 0 then Bunny else Fun)
    ensures r.currentVideo == Some(r.videos[0])
    ensures r.player.queue == s.player.queue + MediaItemsOf(r.videos)
    ensures r.player.active == s.player.active && r.player.prepared == s.player.prepared
    ensures r.isPlayerLoading == s.isPlayerLoading && r.visibleTitle == s.visibleTitle
  {
    var fakeVideos := FakeVideos(FakeRepeat);
    s.(videos := fakeVideos,
       currentVideo := Some(fakeVideos[0]),
       player := AddMediaItems(s.player, MediaItemsOf(fakeVideos)))
  }

  /** The view model as built around the injected player: initialisers, then `init`. */
  function Init(player: Player): (s: State)
    ensures |s.videos| == 6
    ensures s.currentVideo == Some(Bunny) && s.currentVideo.value.name == "Bunny"
    ensures s.player.queue == player.queue + MediaItemsOf(s.videos)
    ensures player.queue == [] ==> s.player.queue == MediaItemsOf(s.videos)
    ensures s.player.prepared && s.player.active == player.active
    ensures !s.isPlayerLoading && s.visibleTitle
  {
    var seeded := CreateFakeList(Constructed(player));
    seeded.(player := Prepare(seeded.player))
  }

  /** `videos.find { it.contentUri == uri }`, as the index of the entry found. */
  function FindIndex(videos: seq<VideoItem>, uri: Uri): (r: Option<nat>)
    ensures r.Some? ==> r.value < |videos| && videos[r.value].contentUri == uri
    ensures r.Some? ==> forall j :: 0 <= j < r.value ==> videos[j].contentUri != uri
    ensures r.None? ==> forall j :: 0 <= j < |videos| ==> videos[j].contentUri != uri
  {
    if videos == [] then None
    else if videos[0].contentUri == uri then Some(0)
    else match FindIndex(videos[1..], uri)
      case None => None
      case Some(i) => Some(i + 1)
  }

  /** `i` is the position of the first entry of `videos` whose `contentUri` is `uri`. */
  ghost predicate FirstMatch(videos: seq<VideoItem>, uri: Uri, i: int)
  {
    && 0 <= i < |videos|
    && videos[i].contentUri == uri
    && forall j :: 0 <= j < i ==> videos[j].contentUri != uri
  }

  /** Kotlin's `find`: the first entry whose `contentUri` is `uri`, or null. */
  function Find(videos: seq<VideoItem>, uri: Uri): (r: Option<VideoItem>)
    ensures r.Some? <==> exists k :: 0 <= k < |videos| && videos[k].contentUri == uri
    ensures forall i :: FirstMatch(videos, uri, i) ==> r == Some(videos[i])
  {
    match FindIndex(videos, uri)
    case None => None
    case Some(i) => Some(videos[i])
  }

  /**
   `playVideo(uri)`: the player is always switched to `uri`; the current
   video becomes the first listed entry for `uri`, and stays as it was
   when no entry has that URI (the `?: return`).
   */
  function PlayVideo(s: State, uri: Uri): (r: State)
    ensures r.player.active == Some(FromUri(uri))
    ensures r.player.queue == s.player.queue && r.player.prepared == s.player.prepared
    ensures r.videos == s.videos && r.isPlayerLoading == s.isPlayerLoading && r.visibleTitle == s.visibleTitle
    ensures forall i :: FirstMatch(s.videos, uri, i) ==> r.currentVideo == Some(s.videos[i])
    ensures (forall k :: 0 <= k < |s.videos| ==> s.videos[k].contentUri != uri) ==> r.currentVideo == s.currentVideo
  {
    var s' := s.(player := SetMediaItem(s.player, FromUri(uri)));
    match Find(s.videos, uri)
    case None => s'
    case Some(v) => s'.(currentVideo := Some(v))
  }

  /** The current video, when there is one, is an entry of the playlist. */
  ghost predicate Valid(s: State)
  {
    s.currentVideo.Some? ==> s.currentVideo.value in s.videos
  }

  /** `init` leaves the view model with its current video in the playlist. */
  lemma InitValid(p: Player)
    ensures Valid(Init(p))
  {
    assert Init(p).videos[0] == Bunny;
  }

  /** `playVideo` keeps the current video in the playlist, hit or miss. */
  lemma PlayVideoPreservesValid(s: State, uri: Uri)
    requires Valid(s)
    ensures Valid(PlayVideo(s, uri))
  {
    match FindIndex(s.videos, uri)
    case None =>
    case Some(k) => PlayVideoFound(s, uri, k);
  }

  /** When the playlist has an entry for `uri`, the current video afterwards is an entry for `uri`. */
  lemma PlayVideoFound(s: State, uri: Uri, k: int)
    requires 0 <= k < |s.videos| && s.videos[k].contentUri == uri
    ensures PlayVideo(s, uri).currentVideo.Some?
    ensures PlayVideo(s, uri).currentVideo.value in s.videos
    ensures PlayVideo(s, uri).currentVideo.value.contentUri == uri
  {
    var i := FindIndex(s.videos, uri);
    assert i.Some?;
    assert FirstMatch(s.videos, uri, i.value);
  }

  /**
   The miss case is not a no-op: the player now holds `uri` while the
   current video, if any, still names a different URI.
   */
  lemma PlayVideoMissDesynchronises(s: State, uri: Uri)
    requires forall k :: 0 <= k < |s.videos| ==> s.videos[k].contentUri != uri
    requires s.currentVideo.Some? && s.currentVideo.value.contentUri != uri
    ensures PlayVideo(s, uri).player.active == Some(FromUri(uri))
    ensures PlayVideo(s, uri).currentVideo == s.currentVideo
    ensures PlayVideo(s, uri).player.active.value.uri != PlayVideo(s, uri).currentVideo.value.contentUri
  {
  }

  /** Asking twice for the same URI is the same as asking once. */
  lemma PlayVideoIdempotent(s: State, uri: Uri)
    ensures PlayVideo(PlayVideo(s, uri), uri) == PlayVideo(s, uri)
  {
  }

  /** A request whose URI is listed overrides whatever was played before it. */
  lemma PlayVideoLatestListedWins(s: State, u: Uri, v: Uri, k: int)
    requires 0 <= k < |s.videos| && s.videos[k].contentUri == v
    ensures PlayVideo(PlayVideo(s, u), v) == PlayVideo(s, v)
  {
  }

}
