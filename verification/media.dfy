/**
 The injected Media3 `Player`, abstracted to what the app asks of it:
 a queue of media items, the item set as the active one, and whether
 `prepare` was called. Buffering, decoding and networking stay inside
 the library and are not modelled.
 */
module Media {
  import opened Options
  import opened VideoItems

  datatype Player = Player(queue: seq<MediaItem>, active: Option<MediaItem>, prepared: bool)

  /** A freshly built player: nothing queued, nothing active, not prepared. */
  const EmptyPlayer: Player := Player([], None, false)

  /** `addMediaItems`: the items go to the end of the queue, in order. */
  function AddMediaItems(p: Player, items: seq<MediaItem>): Player
  {
    p.(queue := p.queue + items)
  }

  /** `setMediaItem`: the given item becomes the active one. */
  function SetMediaItem(p: Player, item: MediaItem): Player
  {
    p.(active := Some(item))
  }

  /** `prepare`: the player starts loading its media. */
  function Prepare(p: Player): Player
  {
    p.(prepared := true)
  }

}
