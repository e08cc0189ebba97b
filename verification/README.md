# ExoPlayer Media3 Compose sample — a Dafny model of its player/UI state

The app shows a Media3 player above a playlist. Its only logic is a small
state machine, split between `PlayerViewModel` and the `Player.Listener`
that `PlayerScreen` registers. The view model holds the playlist
(`videos`), the current item (`currentVideo`) and two flags:
`isPlayerLoading` drives the spinner and `visibleTitle` drives the title
overlay. `init` seeds the playlist and queues it on the injected player.
`playVideo(uri)` switches the player to `uri` and looks the entry up in
the playlist. The listener sets the flags from player callbacks.

This model turns every mutable Compose state into a field of an
immutable `State` record. Each operation and callback becomes a pure
function from one record to the next:

- `options.dfy`: `Option`, which stands in for Kotlin's nullable types.
- `video_item.dfy` (`VideoItems`): the `VideoItem` data class, with its
  default thumbnail. A `MediaItem` is reduced to the URI it was built
  from.
- `media.dfy` (`Media`): the injected player, reduced to a queue, an
  active item and a prepared flag.
- `player_view_model.dfy` (`PlayerViewModel`): the initial values, the
  seeded list, `init`, Kotlin's `find`, and `playVideo`.
- `player_screen.dfy` (`PlayerScreen`): the listener callbacks, one
  `Step` per callback, the rendered screen, row taps and the two clip
  buttons.
- `event_sequences.dfy` (`EventSequences`): callback sequences. One law
  covers both flags: each flag ends up as the last callback that decides
  it left it. Its reference definition is `Effect`/`LatestDecision`,
  which is independent of the state record.
- `scenarios.dfy` (`Scenarios`): the seeded app end to end.

Behaviour of the code worth knowing before reading the contracts:

- `playVideo` with an unlisted URI is not a no-op. It calls
  `setMediaItem` before the lookup, so the player switches and only
  `currentVideo` stays as it was (`PlayVideoMissDesynchronises`).
- Rows are marked playing by the data class's structural `==`. The
  three equal "Bunny" entries are therefore all drawn as playing at once
  (`InitialScreen`, `TapSeededRow`).
- The seed list has six entries: three Bunny/"Some Random Stuff" pairs.
- `release()` is called once, with no guard. That call is not modelled.
- A non-null current video is always an entry of the playlist: `init`
  establishes this and `playVideo` and every callback keep it (`Valid`).

## Model

| member | source | states |
|---|---|---|
| VideoItems.NewVideoItem | app/src/main/java/com/example/exoplayersample/data/VideoItem.kt:6-10 | a constructed item carries the given URI, media item and name, and the fixed placeholder URL when none is given |
| PlayerViewModel.Constructed | app/src/main/java/com/example/exoplayersample/screen/player/PlayerViewModel.kt:31-33 | before `init`: no current video, not loading, title visible, empty playlist, player as injected |
| PlayerViewModel.FakeVideos | app/src/main/java/com/example/exoplayersample/screen/player/PlayerViewModel.kt:45-64 | `n` rounds of the loop give `2n` entries; even positions are ("Bunny", BigBuckBunny.mp4) and odd ones ("Some Random Stuff", ForBiggerFun.mp4) |
| PlayerViewModel.CreateFakeList | app/src/main/java/com/example/exoplayersample/screen/player/PlayerViewModel.kt:43-68 | publishes exactly 6 alternating entries, makes the first one current, and appends their media items in order to the player's queue; the flags and the active item stay as they were |
| PlayerViewModel.Init | app/src/main/java/com/example/exoplayersample/screen/player/PlayerViewModel.kt:31-68 | after `init`: 6 entries; current video is the Bunny entry; queue is the old queue followed by the entries' media items, which on a fresh player is exactly those items; player prepared; flags at their initial values |
| PlayerViewModel.MediaItemsOf | app/src/main/java/com/example/exoplayersample/screen/player/PlayerViewModel.kt:67 | the media items handed to `addMediaItems` are the entries' media items, one per entry, in list order |
| PlayerViewModel.InitValid | app/src/main/java/com/example/exoplayersample/screen/player/PlayerViewModel.kt:36-68 | after `init` the current video is an entry of the playlist |
| PlayerViewModel.PlayVideoPreservesValid | app/src/main/java/com/example/exoplayersample/screen/player/PlayerViewModel.kt:70-75 | `playVideo` keeps the current video an entry of the playlist, whether the URI is listed or not |
| PlayerViewModel.FindIndex | app/src/main/java/com/example/exoplayersample/screen/player/PlayerViewModel.kt:74 | finds the first position whose `contentUri` is `uri`, and returns none only when no entry has it |
| PlayerViewModel.Find | app/src/main/java/com/example/exoplayersample/screen/player/PlayerViewModel.kt:74 | Kotlin `find`: non-null exactly when some entry has the URI, and then it is the first such entry |
| PlayerViewModel.PlayVideo | app/src/main/java/com/example/exoplayersample/screen/player/PlayerViewModel.kt:70-75 | the player's active item always becomes `uri`; the current video becomes the first matching entry, and is unchanged when nothing matches; playlist, flags and queue are untouched |
| PlayerViewModel.PlayVideoFound | app/src/main/java/com/example/exoplayersample/screen/player/PlayerViewModel.kt:74 | if any entry has `uri`, the current video afterwards is a listed entry with that URI |
| PlayerViewModel.PlayVideoMissDesynchronises | app/src/main/java/com/example/exoplayersample/screen/player/PlayerViewModel.kt:70-75 | on a miss the player holds `uri` while the current video keeps naming a different URI |
| PlayerViewModel.PlayVideoIdempotent | app/src/main/java/com/example/exoplayersample/screen/player/PlayerViewModel.kt:70-75 | playing the same URI twice is the same as playing it once |
| PlayerViewModel.PlayVideoLatestListedWins | app/src/main/java/com/example/exoplayersample/screen/player/PlayerViewModel.kt:70-75 | a request for a listed URI overrides any earlier request entirely |
| PlayerScreen.OnIsPlayingChanged | app/src/main/java/com/example/exoplayersample/screen/player/PlayerScreen.kt:54-56 | the playing-changed callback changes nothing |
| PlayerScreen.OnEvents | app/src/main/java/com/example/exoplayersample/screen/player/PlayerScreen.kt:58-66 | a position of at least 200 ms hides the title; a smaller one changes nothing; it can never show the title; only `visibleTitle` is written |
| PlayerScreen.OnMediaItemTransition | app/src/main/java/com/example/exoplayersample/screen/player/PlayerScreen.kt:69-79 | any transition shows the title whatever its previous value, and writes nothing else |
| PlayerScreen.OnPlaybackStateChanged | app/src/main/java/com/example/exoplayersample/screen/player/PlayerScreen.kt:81-96 | idle or buffering sets loading; ready or ended clears it; any other code changes nothing; only `isPlayerLoading` is written |
| PlayerScreen.Step | app/src/main/java/com/example/exoplayersample/screen/player/PlayerScreen.kt:53-101 | no callback touches the playlist, the current video or the player; title callbacks leave loading alone and state callbacks leave the title alone |
| PlayerScreen.StepPreservesValid | app/src/main/java/com/example/exoplayersample/screen/player/PlayerScreen.kt:53-101 | no callback moves the current video out of the playlist |
| PlayerScreen.StepIdempotent | app/src/main/java/com/example/exoplayersample/screen/player/PlayerScreen.kt:53-96 | any callback delivered twice in a row has the effect of one delivery |
| PlayerScreen.StepCommutesWithPlayVideo | app/src/main/java/com/example/exoplayersample/screen/player/PlayerScreen.kt:53-96 | a callback and a `playVideo` call give the same state in either order |
| PlayerScreen.Render | app/src/main/java/com/example/exoplayersample/screen/player/PlayerScreen.kt:157-215 | spinner shown iff loading; title text present iff title visible and a current video exists, and then it is that video's name; one row per entry, marked playing iff the entry equals the current video structurally |
| PlayerScreen.TapRow | app/src/main/java/com/example/exoplayersample/screen/player/PlayerScreen.kt:209-214 | tapping a row is `playVideo` with that row's URI; it always plays the URI and yields a current video with that URI; the tapped row is drawn as playing iff the first entry with its URI equals it |
| PlayerScreen.PressButton | app/src/main/java/com/example/exoplayersample/screen/player/PlayerScreen.kt:193-200 | each clip button is `playVideo` with its fixed URI: the player switches to it, the flags, queue and playlist are untouched, and the first listed entry with that URI becomes current; the current video follows only if that URI is listed |
| EventSequences.StepEffect | app/src/main/java/com/example/exoplayersample/screen/player/PlayerScreen.kt:58-96 | each callback sets a flag to the value in the state-independent effect table, or leaves the flag unchanged |
| EventSequences.RunFollowsLatestDecision | app/src/main/java/com/example/exoplayersample/screen/player/PlayerScreen.kt:58-96 | after any callback sequence each flag is true iff the last callback deciding it set it, or none decided it and it was already true |
| EventSequences.RunKeepsViewModelData | app/src/main/java/com/example/exoplayersample/screen/player/PlayerScreen.kt:53-101 | no callback sequence changes the playlist, the current video or the player |
| EventSequences.RunPreservesValid | app/src/main/java/com/example/exoplayersample/screen/player/PlayerScreen.kt:53-101 | no callback sequence moves the current video out of the playlist |
| EventSequences.LoadingFollowsLastStateChange | app/src/main/java/com/example/exoplayersample/screen/player/PlayerScreen.kt:81-96 | loading depends only on the last recognised state callback, whatever came before it and whatever non-deciding callbacks (including unrecognised state codes) came after it |
| EventSequences.BufferingAfterReadyLoads | app/src/main/java/com/example/exoplayersample/screen/player/PlayerScreen.kt:84-94 | buffering after ready shows the spinner again; ready after buffering hides it |
| EventSequences.HiddenTitleStaysHidden | app/src/main/java/com/example/exoplayersample/screen/player/PlayerScreen.kt:58-79 | a hidden title stays hidden through any callbacks until a media-item transition arrives |
| EventSequences.ShownTitleStaysShown | app/src/main/java/com/example/exoplayersample/screen/player/PlayerScreen.kt:58-79 | a shown title stays shown until a callback reports a position of at least 200 ms |
| Scenarios.InitialScreen | app/src/main/java/com/example/exoplayersample/screen/player/PlayerScreen.kt:157-214 | the screen after `init` has no spinner and the title "Bunny", and rows 0, 2 and 4 are drawn as playing |
| Scenarios.TapSeededRow | app/src/main/java/com/example/exoplayersample/screen/player/PlayerScreen.kt:209-214 | in the seeded list, tapping row k draws exactly the rows with k's parity as playing, row k among them |
| Scenarios.Session | app/src/main/java/com/example/exoplayersample/screen/player/PlayerScreen.kt:58-199 | on a fresh player: buffering loads, ready clears, the second clip becomes current, its transition shows "Some Random Stuff", and a 250 ms tick hides it |

## Left out

- `onCleared`/`release()` (PlayerViewModel.kt:77-82): a single unguarded call into the player. Releasing twice is not claimed safe.
- Media3 internals: buffering, decoding, networking, and what `prepare`, `addMediaItems` and `setMediaItem` do inside the player. The player is only a queue, an active item and a prepared flag. Media3's `setMediaItem` also replaces the playlist, and adding items to an empty player makes the first one current; the model tracks neither.
- The `stateIn(..., WhileSubscribed, emptyList())` flow: `videos.value` is empty until the screen collects it, so an early `playVideo` would miss. `videos` is modelled as the list set by `init`.
- Hilt injection, `SavedStateHandle`, `DisposableEffect` listener registration and removal, and `AndroidView`.
- Host lifecycle pause/resume (PlayerScreen.kt:104-151): it only forwards foreign calls to the view.
- `onPlayerError` is commented out in the source, so there is no error behaviour to model.
- `VideoCard` layout, colours, image loading and the "Now Playing" badge. Its one input, `isCurrentPlaying`, is modelled in `Render`.
- `AnimatedVisibility` fade timing: the title is modelled as simply shown or hidden.
- `onEvents` receives a `Player.Events` set. The listener ignores it and reads only `player.currentPosition`, which is the event's `position` here. Where that position comes from is the player's business.
- Android `Uri` parsing and normalisation: URIs are strings compared by equality.
