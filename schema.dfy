/**
 * shared/schema.ts: the two stored record types and the shapes they are created from.
 * A column that may be `null` is an `Option`; ids are the integers the store assigns.
 */
module Schema {
  import opened Wrappers

  /** What `createChannel` receives: the name and whatever the YouTube lookup found. */
  datatype InsertChannel = InsertChannel(
    name: string,
    profileImage: Option<string>,
    channelId: Option<string>,
    description: Option<string>)

  /** A stored channel. */
  datatype Channel = Channel(
    id: int,
    name: string,
    profileImage: Option<string>,
    channelId: Option<string>,
    description: Option<string>)

  /** What `createVideo` receives. */
  datatype InsertVideo = InsertVideo(
    title: string,
    videoId: string,
    channelName: string,
    url: string,
    thumbnail: Option<string>,
    duration: Option<string>,
    publishedAt: Option<string>)

  /** A stored video. */
  datatype Video = Video(
    id: int,
    title: string,
    videoId: string,
    channelName: string,
    url: string,
    thumbnail: Option<string>,
    duration: Option<string>,
    publishedAt: Option<string>)

  /** `value || null` on an optional text column: a missing value and the empty string
      (the falsy strings) both become `null`; any other text is kept. */
  function OrNull(value: Option<string>): (stored: Option<string>)
    ensures stored.Some? <==> value.Some? && value.value != ""
    ensures stored.Some? ==> stored == value
  {
    if value.Some? && value.value != "" then value else None
  }

  function ChannelKey(c: Channel): int { c.id }

  function VideoKey(v: Video): int { v.id }
}
