/**
 * server/routes.ts `fetchChannelMetadata`: from a channel URL to the name, picture,
 * id and description of the channel, through two YouTube Data API calls.  The two
 * calls are parameters: `search` answers the channel search for a query and
 * `channels` answers the channel-details request for an id.  Each answer says whether
 * the request threw (network failure or unreadable JSON), came back not ok, or came
 * back ok with its items.
 */
module ChannelMetadata {
  import opened Wrappers
  import opened Schema
  import opened ChannelUrls

  /** `snippet.thumbnails`: the url of the `default` and `medium` sizes, if present. */
  datatype Thumbnails = Thumbnails(defaultUrl: Option<string>, mediumUrl: Option<string>)

  /** Answer to `search?type=channel&q=…&maxResults=1`: the `snippet.channelId` of each item. */
  datatype SearchResponse = SearchThrew | SearchNotOk | SearchOk(channelIds: seq<string>)

  /** One item of the `channels?part=snippet` answer; a missing `thumbnails` object is `None`. */
  datatype ChannelItem = ChannelItem(title: string, thumbnails: Option<Thumbnails>, description: Option<string>)

  /** Answer to `channels?part=snippet&id=…`; a missing `items` array is the empty one. */
  datatype ChannelsResponse = ChannelsThrew | ChannelsNotOk | ChannelsOk(items: seq<ChannelItem>)

  datatype ChannelInfo = ChannelInfo(name: string, profileImage: Option<string>, channelId: string,
                                     description: Option<string>)

  /** Why the lookup inside the `try` block threw: a request or a property read threw,
      the details request was not ok ("Failed to fetch channel data from YouTube"), or
      it listed no channel ("Channel not found"). */
  datatype LookupError = RequestThrew | ChannelDataUnavailable | ChannelNotFound

  const InvalidUrlMessage := "Invalid YouTube channel URL"
  const NoApiKeyMessage := "YouTube API key not configured"
  const LookupFailedMessage := "Failed to fetch channel information"

  /** A channel id proper (`UC…`), as opposed to a custom name, user name or handle. */
  predicate IsCanonical(ref: string) {
    |ref| >= 2 && ref[..2] == "UC"
  }

  /** `if (!apiKey)`: an unset or empty `YOUTUBE_API_KEY` is missing. */
  predicate HasApiKey(apiKey: Option<string>) {
    apiKey.Some? && apiKey.value != ""
  }

  /** The id the details request is made for: a canonical reference as it is, otherwise
      the first channel the search finds, falling back to the reference itself. */
  function ResolveChannelId(ref: string, search: string -> SearchResponse): (r: Result<string, LookupError>)
    ensures IsCanonical(ref) ==> r == Success(ref)
    ensures r.Failure? <==> !IsCanonical(ref) && search(ref).SearchThrew?
    ensures r.Failure? ==> r.error == RequestThrew
    ensures r.Success? && r.value != ref ==> search(ref).SearchOk? && |search(ref).channelIds| > 0
                                             && r.value == search(ref).channelIds[0]
    ensures !IsCanonical(ref) && search(ref).SearchOk? && |search(ref).channelIds| > 0 ==>
              r == Success(search(ref).channelIds[0])
    ensures !IsCanonical(ref) && (search(ref).SearchNotOk? || search(ref) == SearchOk([])) ==> r == Success(ref)
  {
    if IsCanonical(ref) then Success(ref)
    else
      match search(ref)
      case SearchThrew => Failure(RequestThrew)
      case SearchNotOk => Success(ref)
      case SearchOk(ids) => if |ids| > 0 then Success(ids[0]) else Success(ref)
  }

  /** The channel details for `id`, taken from the first item of the answer. */
  function LookupChannel(id: string, channels: string -> ChannelsResponse): (r: Result<ChannelInfo, LookupError>)
    ensures r.Success? <==> channels(id).ChannelsOk? && |channels(id).items| > 0
                            && channels(id).items[0].thumbnails.Some?
    ensures r.Success? ==> var item := channels(id).items[0];
                           r.value == ChannelInfo(item.title, OrNull(item.thumbnails.value.defaultUrl), id,
                                                  OrNull(item.description))
    ensures r.Success? ==> r.value.profileImage != Some("") && r.value.description != Some("")
    ensures r.Failure? && r.error == ChannelNotFound <==> channels(id) == ChannelsOk([])
    ensures r.Failure? && r.error == ChannelDataUnavailable <==> channels(id).ChannelsNotOk?
  {
    match channels(id)
    case ChannelsThrew => Failure(RequestThrew)
    case ChannelsNotOk => Failure(ChannelDataUnavailable)
    case ChannelsOk(items) =>
      if |items| == 0 then Failure(ChannelNotFound)
      else
        match items[0].thumbnails
        case None => Failure(RequestThrew)
        case Some(t) => Success(ChannelInfo(items[0].title, OrNull(t.defaultUrl), id, OrNull(items[0].description)))
  }

  /** `fetchChannelMetadata`: the two checks outside the `try`, then the lookup, whose
      every failure the `catch` turns into one message. */
  function FetchChannelMetadata(url: string, apiKey: Option<string>, search: string -> SearchResponse,
                                channels: string -> ChannelsResponse): (r: Result<ChannelInfo, string>)
    ensures r.Failure? ==> r.error == InvalidUrlMessage || r.error == NoApiKeyMessage || r.error == LookupFailedMessage
    ensures r == Failure(InvalidUrlMessage) <==> ExtractChannelId(url).None?
    ensures r == Failure(NoApiKeyMessage) <==> ExtractChannelId(url).Some? && !HasApiKey(apiKey)
    ensures r == Failure(LookupFailedMessage) <==>
              ExtractChannelId(url).Some? && HasApiKey(apiKey)
              && (ResolveChannelId(ExtractChannelId(url).value, search).Failure?
                  || LookupChannel(ResolveChannelId(ExtractChannelId(url).value, search).value, channels).Failure?)
    ensures r.Success? ==> ExtractChannelId(url).Some? && HasApiKey(apiKey)
                           && ResolveChannelId(ExtractChannelId(url).value, search).Success?
                           && LookupChannel(ResolveChannelId(ExtractChannelId(url).value, search).value, channels)
                              == Success(r.value)
  {
    match ExtractChannelId(url)
    case None => Failure(InvalidUrlMessage)
    case Some(ref) =>
      if !HasApiKey(apiKey) then Failure(NoApiKeyMessage)
      else
        match ResolveChannelId(ref, search)
        case Failure(_) => Failure(LookupFailedMessage)
        case Success(id) =>
          match LookupChannel(id, channels)
          case Failure(_) => Failure(LookupFailedMessage)
          case Success(info) => Success(info)
  }

  /** What a successful lookup returns is the first channel of the details answer for
      the resolved id: the first search hit when the reference is not canonical and the
      search answered ok with a hit, and the reference itself otherwise. */
  lemma SuccessComesFromDetails(url: string, apiKey: Option<string>, search: string -> SearchResponse,
                                channels: string -> ChannelsResponse)
    requires FetchChannelMetadata(url, apiKey, search, channels).Success?
    ensures ExtractChannelId(url).Some? && HasApiKey(apiKey)
    ensures var info := FetchChannelMetadata(url, apiKey, search, channels).value;
            var ref := ExtractChannelId(url).value;
            && info.channelId == (if !IsCanonical(ref) && search(ref).SearchOk? && |search(ref).channelIds| > 0
                                  then search(ref).channelIds[0] else ref)
            && channels(info.channelId).ChannelsOk? && |channels(info.channelId).items| > 0
            && info.name == channels(info.channelId).items[0].title
  {
    var ref := ExtractChannelId(url).value;
    var id := ResolveChannelId(ref, search).value;
    assert LookupChannel(id, channels).Success?;
  }

  /** A URL that names a canonical channel id makes no search: the result is the same
      whatever the search would have answered, and the details are fetched for that id. */
  lemma CanonicalSkipsSearch(url: string, apiKey: Option<string>, search1: string -> SearchResponse,
                             search2: string -> SearchResponse, channels: string -> ChannelsResponse)
    requires ExtractChannelId(url).Some? && IsCanonical(ExtractChannelId(url).value)
    ensures FetchChannelMetadata(url, apiKey, search1, channels) == FetchChannelMetadata(url, apiKey, search2, channels)
    ensures FetchChannelMetadata(url, apiKey, search1, channels).Success? ==>
              FetchChannelMetadata(url, apiKey, search1, channels).value.channelId == ExtractChannelId(url).value
  {
    var ref := ExtractChannelId(url).value;
    assert ResolveChannelId(ref, search1) == Success(ref) == ResolveChannelId(ref, search2);
    if HasApiKey(apiKey) {
      var looked := LookupChannel(ref, channels);
      var expected: Result<ChannelInfo, string> :=
        if looked.Success? then Success(looked.value) else Failure(LookupFailedMessage);
      assert FetchChannelMetadata(url, apiKey, search1, channels) == expected;
      assert FetchChannelMetadata(url, apiKey, search2, channels) == expected;
    }
  }

  /** End to end for a handle page: the handle is searched for, and the first channel
      found is the one whose details are returned. */
  lemma HandlePageResolved(handle: string, apiKey: Option<string>, search: string -> SearchResponse,
                           channels: string -> ChannelsResponse, id: string, item: ChannelItem)
    requires IsChannelRef(handle) && !IsCanonical(handle) && HasApiKey(apiKey)
    requires search(handle).SearchOk? && |search(handle).channelIds| > 0 && search(handle).channelIds[0] == id
    requires channels(id).ChannelsOk? && |channels(id).items| > 0 && channels(id).items[0] == item
    requires item.thumbnails.Some?
    ensures FetchChannelMetadata(HandlePage + handle, apiKey, search, channels)
            == Success(ChannelInfo(item.title, OrNull(item.thumbnails.value.defaultUrl), id, OrNull(item.description)))
  {
    var url := HandlePage + handle;
    HandlePageRoundTrip(handle);
    assert ExtractChannelId(url) == Some(handle);
    assert ResolveChannelId(handle, search) == Success(id);
    var info := ChannelInfo(item.title, OrNull(item.thumbnails.value.defaultUrl), id, OrNull(item.description));
    assert LookupChannel(id, channels) == Success(info);
  }
}
