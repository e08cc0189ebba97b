/**
 The playable entry of the playlist, `VideoItem` of the data package.
 */
module VideoItems {

  /** An Android `Uri`, compared only by equality; its parsing is not modelled. */
  type Uri = string

  /** A Media3 `MediaItem`, reduced to the URI `MediaItem.fromUri` built it from. */
  datatype MediaItem = FromUri(uri: Uri)

  /** The thumbnail every item gets when its constructor is not given one. */
  const DefaultPlaceHolder: string := "https://wallpaperaccess.com/full/899965.jpg"

  /**
   A Kotlin `data class`: the derived `==` compares all four properties,
   which is exactly Dafny's structural equality on this datatype.
   */
  datatype VideoItem = VideoItem(contentUri: Uri, mediaItem: MediaItem, name: string, placeHolder: string)

  /** The constructor call that leaves `placeHolder` at its default. */
  function NewVideoItem(contentUri: Uri, mediaItem: MediaItem, name: string): (v: VideoItem)
    ensures v.contentUri == contentUri && v.mediaItem == mediaItem && v.name == name
    ensures v.placeHolder == DefaultPlaceHolder
  {
    VideoItem(contentUri, mediaItem, name, DefaultPlaceHolder)
  }

}
