/**
 * The two state-changing routes of server/routes.ts: `POST /api/channels`, which looks
 * a channel up, refuses a name already stored and otherwise stores the channel and
 * hands its video ingestion to a background job, and `DELETE /api/videos/:id`.
 * A response is its status code and its JSON body.
 */
module Routes {
  import opened Wrappers
  import opened Schema
  import opened Storage
  import opened ChannelMetadata

  datatype Body = ChannelBody(channel: Channel) | MessageBody(message: string)

  datatype Response = Response(status: int, body: Body)

  /** The ingestion started in the background for a newly stored channel
      (`fetchChannelVideos(channelId, name)`); nothing waits for it. */
  datatype VideoJob = VideoJob(channelId: string, channelName: string)

  const InvalidRequestMessage := "Invalid request data"
  const DuplicateChannelMessage := "Channel already exists in your collection"
  const VideoNotFoundMessage := "Video not found"
  const VideoDeletedMessage := "Video deleted successfully"

  /** No two stored channels share a name: what the check before `createChannel` keeps. */
  predicate NamesUnique(cs: seq<Channel>) {
    forall i, j :: 0 <= i < j < |cs| ==> cs[i].name != cs[j].name
  }

  predicate HasName(cs: seq<Channel>, name: string) {
    exists k :: 0 <= k < |cs| && cs[k].name == name
  }

  /** What `createChannel` is given for a looked-up channel. */
  function ChannelInput(info: ChannelInfo): (input: InsertChannel)
    ensures input.name == info.name && input.channelId == Some(info.channelId)
    ensures input.profileImage == info.profileImage && input.description == info.description
  {
    InsertChannel(info.name, info.profileImage, Some(info.channelId), info.description)
  }

  /** The channel `createChannel` stores for a looked-up channel under key `id`; an
      empty channel id, like any empty text column, is stored as `null`. */
  function StoredChannel(id: int, info: ChannelInfo): (c: Channel)
    ensures c.id == id && c.name == info.name
    ensures c.channelId.Some? <==> info.channelId != ""
    ensures c.channelId.Some? ==> c.channelId.value == info.channelId
    ensures c.profileImage == OrNull(info.profileImage) && c.description == OrNull(info.description)
  {
    Channel(id, info.name, OrNull(info.profileImage), OrNull(Some(info.channelId)), OrNull(info.description))
  }

  /** Appending a channel whose name is not stored keeps the names unique. */
  lemma AppendNewNameKeepsUnique(cs: seq<Channel>, c: Channel)
    requires NamesUnique(cs) && !HasName(cs, c.name)
    ensures NamesUnique(cs + [c])
  {
    forall i, j | 0 <= i < j < |cs + [c]|
      ensures (cs + [c])[i].name != (cs + [c])[j].name
    {
      if j == |cs| {
        assert (cs + [c])[i] == cs[i];
      }
    }
  }

  /** `POST /api/channels`.  `channelUrl` is `None` when the body does not hold a URL
      string (the schema check fails); the YouTube answers are parameters. */
  method AddChannel(store: MemStorage, channelUrl: Option<string>, apiKey: Option<string>,
                    search: string -> SearchResponse, channels: string -> ChannelsResponse)
    returns (resp: Response, job: Option<VideoJob>)
    requires store.Valid()
    modifies store
    ensures store.Valid()
    ensures store.videos == old(store.videos) && store.currentVideoId == old(store.currentVideoId)
    ensures channelUrl.None? ==> resp == Response(400, MessageBody(InvalidRequestMessage))
    ensures channelUrl.Some? && FetchChannelMetadata(channelUrl.value, apiKey, search, channels).Failure? ==>
              resp == Response(500, MessageBody(FetchChannelMetadata(channelUrl.value, apiKey, search, channels).error))
    ensures channelUrl.Some? && FetchChannelMetadata(channelUrl.value, apiKey, search, channels).Success? &&
            HasName(old(store.channels), FetchChannelMetadata(channelUrl.value, apiKey, search, channels).value.name) ==>
              resp == Response(400, MessageBody(DuplicateChannelMessage))
    ensures channelUrl.Some? && FetchChannelMetadata(channelUrl.value, apiKey, search, channels).Success? &&
            !HasName(old(store.channels), FetchChannelMetadata(channelUrl.value, apiKey, search, channels).value.name) ==>
              var info := FetchChannelMetadata(channelUrl.value, apiKey, search, channels).value;
              var c := StoredChannel(old(store.currentChannelId), info);
              resp == Response(200, ChannelBody(c)) && store.channels == old(store.channels) + [c]
              && store.currentChannelId == old(store.currentChannelId) + 1
              && job == Some(VideoJob(info.channelId, info.name))
    ensures resp.status != 200 ==>
              job.None? && store.channels == old(store.channels)
              && store.currentChannelId == old(store.currentChannelId)
    ensures job.None? ==> store.channels == old(store.channels) && store.currentChannelId == old(store.currentChannelId)
    ensures NamesUnique(old(store.channels)) ==> NamesUnique(store.channels)
  {
    job := None;
    if channelUrl.None? {
      return Response(400, MessageBody(InvalidRequestMessage)), None;
    }
    var metadata := FetchChannelMetadata(channelUrl.value, apiKey, search, channels);
    if metadata.Failure? {
      return Response(500, MessageBody(metadata.error)), None;
    }
    var info := metadata.value;
    var existing := store.GetChannelByName(info.name);
    if existing.Some? {
      return Response(400, MessageBody(DuplicateChannelMessage)), None;
    }
    ghost var before := store.channels;
    ghost var key := store.currentChannelId;
    assert !HasName(before, info.name);
    var channel := store.CreateChannel(ChannelInput(info));
    assert channel == StoredChannel(key, info);
    if NamesUnique(before) {
      AppendNewNameKeepsUnique(before, channel);
    }
    job := Some(VideoJob(info.channelId, info.name));
    resp := Response(200, ChannelBody(channel));
  }

  /** `DELETE /api/videos/:id`.  `id` is `None` when the path segment is not a number
      (`parseInt` gives `NaN`, a key no video has). */
  method DeleteVideo(store: MemStorage, id: Option<int>) returns (resp: Response)
    requires store.Valid()
    modifies store
    ensures store.Valid()
    ensures var found := id.Some? && exists k :: 0 <= k < |old(store.videos)| && old(store.videos)[k].id == id.value;
            resp == if found then Response(200, MessageBody(VideoDeletedMessage))
                    else Response(404, MessageBody(VideoNotFoundMessage))
    ensures id.Some? ==> store.videos == Delete(old(store.videos), VideoKey, id.value)
    ensures id.None? ==> store.videos == old(store.videos)
    ensures store.channels == old(store.channels)
    ensures store.currentChannelId == old(store.currentChannelId) && store.currentVideoId == old(store.currentVideoId)
  {
    if id.None? {
      return Response(404, MessageBody(VideoNotFoundMessage));
    }
    var success := store.DeleteVideo(id.value);
    if !success {
      return Response(404, MessageBody(VideoNotFoundMessage));
    }
    resp := Response(200, MessageBody(VideoDeletedMessage));
  }
}
