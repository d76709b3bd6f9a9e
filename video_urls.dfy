/**
 * client/src/lib/youtube.ts: recognising a video URL, and the embed URL built from a
 * video id.  The same `extractVideoId` appears, unused, in server/routes.ts; it is
 * modelled once, here.  `WatchUrl` is the watch URL that the ingestion stage stores
 * for every video (server/routes.ts).
 */
module VideoUrls {
  import opened Wrappers
  import opened Patterns

  /** The capture class `[^&\n?#]` of both video-id patterns. */
  predicate VideoIdChar(c: char) {
    c != '&' && c != '\n' && c != '?' && c != '#'
  }

  /** First pattern: `(?:youtube\.com\/watch\?v=|youtu\.be\/|youtube\.com\/embed\/)`. */
  const WatchPrefixes: seq<string> := ["youtube.com/watch?v=", "youtu.be/", "youtube.com/embed/"]

  /** Second pattern: `youtube\.com\/v\/`. */
  const LegacyPrefixes: seq<string> := ["youtube.com/v/"]

  const EmbedPrefix := "https://www.youtube-nocookie.com/embed/"

  const WatchPrefix := "https://www.youtube.com/watch?v="

  predicate IsVideoId(id: string) {
    |id| > 0 && forall k :: 0 <= k < |id| ==> VideoIdChar(id[k])
  }

  /** The id of the first of the two patterns that matches `url`, or `None` (`null`):
      the loop over the two patterns returns on the first match. */
  function ExtractVideoId(url: string): (id: Option<string>)
    ensures id.Some? ==> IsVideoId(id.value)
    ensures Search(url, WatchPrefixes, VideoIdChar).Some? ==> id == Search(url, WatchPrefixes, VideoIdChar)
    ensures Search(url, WatchPrefixes, VideoIdChar).None? ==> id == Search(url, LegacyPrefixes, VideoIdChar)
  {
    var watch := Search(url, WatchPrefixes, VideoIdChar);
    if watch.Some? then
      SearchFindsCapture(url, WatchPrefixes, VideoIdChar);
      watch
    else
      var legacy := Search(url, LegacyPrefixes, VideoIdChar);
      if legacy.Some? then
        SearchFindsCapture(url, LegacyPrefixes, VideoIdChar);
        legacy
      else legacy
  }

  /** The four recognised prefixes, in the order the two patterns try them. */
  const AllPrefixes: seq<string> := WatchPrefixes + LegacyPrefixes

  /** An extracted id is the text right after one of the four recognised prefixes. */
  lemma ExtractedIdFollowsPrefix(url: string) returns (i: nat, k: nat)
    requires ExtractVideoId(url).Some?
    ensures i <= |url| && k < |AllPrefixes| && CaptureAt(url, i, AllPrefixes[k], VideoIdChar) == ExtractVideoId(url)
  {
    AllPrefixesInOrder();
    if Search(url, WatchPrefixes, VideoIdChar).Some? {
      i, k := SearchedAlternative(url, WatchPrefixes, VideoIdChar);
      assert AllPrefixes[k] == WatchPrefixes[k];
    } else {
      var a;
      i, a := SearchedAlternative(url, LegacyPrefixes, VideoIdChar);
      k := |WatchPrefixes| + a;
      assert AllPrefixes[k] == LegacyPrefixes[a];
    }
  }

  lemma AllPrefixesInOrder()
    ensures |AllPrefixes| == |WatchPrefixes| + |LegacyPrefixes|
    ensures forall k :: 0 <= k < |WatchPrefixes| ==> AllPrefixes[k] == WatchPrefixes[k]
    ensures forall k :: 0 <= k < |LegacyPrefixes| ==> AllPrefixes[|WatchPrefixes| + k] == LegacyPrefixes[k]
  {
  }

  /** `null` means that no recognised prefix is followed by an id character anywhere. */
  lemma NoIdMeansNoPrefix(url: string)
    requires ExtractVideoId(url).None?
    ensures forall i, k :: 0 <= i <= |url| && 0 <= k < |AllPrefixes|
                           ==> CaptureAt(url, i, AllPrefixes[k], VideoIdChar).None?
  {
    var results := [Search(url, WatchPrefixes, VideoIdChar), Search(url, LegacyPrefixes, VideoIdChar)];
    assert results[0].None? && results[1].None?;
    SearchMissesEverywhere(url, WatchPrefixes, VideoIdChar);
    SearchMissesEverywhere(url, LegacyPrefixes, VideoIdChar);
    forall i, k | 0 <= i <= |url| && 0 <= k < |AllPrefixes|
      ensures CaptureAt(url, i, AllPrefixes[k], VideoIdChar).None?
    {
      if k < 3 {
        assert AllPrefixes[k] == WatchPrefixes[k];
      } else {
        assert AllPrefixes[k] == LegacyPrefixes[0];
      }
    }
  }

  /** Within the first pattern, the leftmost position where any of its three prefixes
      is followed by an id decides the result. */
  lemma LeftmostWatchMatchWins(url: string, i: nat)
    requires i <= |url| && MatchAt(url, i, WatchPrefixes, VideoIdChar).Some?
    requires forall j :: 0 <= j < i ==> MatchAt(url, j, WatchPrefixes, VideoIdChar).None?
    ensures ExtractVideoId(url) == MatchAt(url, i, WatchPrefixes, VideoIdChar)
  {
    SearchFindsAt(url, WatchPrefixes, VideoIdChar, i);
  }

  /** An id is extracted exactly when some recognised prefix occurs with an id
      character after it. */
  lemma ExtractsIff(url: string)
    ensures ExtractVideoId(url).Some? <==>
            exists i, k :: 0 <= i <= |url| && 0 <= k < |AllPrefixes|
                           && CaptureAt(url, i, AllPrefixes[k], VideoIdChar).Some?
  {
    if ExtractVideoId(url).Some? {
      var i, k := ExtractedIdFollowsPrefix(url);
    } else {
      NoIdMeansNoPrefix(url);
    }
  }

  /** `isValidYouTubeUrl`: `extractVideoId` finds an id, that is, some recognised
      prefix is followed by an id character. */
  function IsValidYouTubeUrl(url: string): (valid: bool)
    ensures valid <==> exists i, k :: 0 <= i <= |url| && 0 <= k < |AllPrefixes|
                                      && CaptureAt(url, i, AllPrefixes[k], VideoIdChar).Some?
    ensures valid ==> ExtractVideoId(url).Some? && IsVideoId(ExtractVideoId(url).value)
  {
    ExtractsIff(url);
    ExtractVideoId(url) != None
  }

  /** `getYouTubeEmbedUrl`: the privacy-enhanced embed address of a video. */
  function GetYouTubeEmbedUrl(videoId: string): (url: string)
    ensures |url| == |EmbedPrefix| + |videoId|
    ensures url[..|EmbedPrefix|] == EmbedPrefix && url[|EmbedPrefix|..] == videoId
  {
    EmbedPrefix + videoId
  }

  /** The watch URL stored with every ingested video. */
  function WatchUrl(videoId: string): (url: string)
    ensures |url| == |WatchPrefix| + |videoId|
    ensures url[..|WatchPrefix|] == WatchPrefix && url[|WatchPrefix|..] == videoId
  {
    WatchPrefix + videoId
  }

  /** Round trip: the id is recovered from the watch URL the server stores. */
  lemma WatchUrlRoundTrip(id: string)
    requires IsVideoId(id)
    ensures ExtractVideoId(WatchUrl(id)) == Some(id)
  {
    var url := WatchUrl(id);
    WatchUrlMatches(id);
    WatchHostMatchesNothing(url);
    SearchFindsAt(url, WatchPrefixes, VideoIdChar, 12);
  }

  /** In a watch URL, `youtube.com/watch?v=` starts at position 12 and the id follows. */
  lemma WatchUrlMatches(id: string)
    requires IsVideoId(id)
    ensures MatchAt(WatchUrl(id), 12, WatchPrefixes, VideoIdChar) == Some(id)
  {
    var url := WatchUrl(id);
    assert url == url[..12] + WatchPrefixes[0] + id;
    CaptureToEnd(url, 12, WatchPrefixes[0], VideoIdChar, id);
  }

  /** Nothing matches inside `https://www.`, which holds no `y`. */
  lemma WatchHostMatchesNothing(url: string)
    requires |url| >= |WatchPrefix| && url[..|WatchPrefix|] == WatchPrefix
    ensures forall j :: 0 <= j < 12 ==> MatchAt(url, j, WatchPrefixes, VideoIdChar).None?
  {
    forall j | 0 <= j < 12
      ensures MatchAt(url, j, WatchPrefixes, VideoIdChar).None?
    {
      assert url[j] == WatchPrefix[j] != 'y';
      NoMatchAtForeignChar(url, j, WatchPrefixes, VideoIdChar);
    }
  }

  /** The embed URL this file builds is not one it recognises: `youtube-nocookie.com`
      is none of the recognised hosts, so for an id without `/` the result is `null`. */
  lemma EmbedUrlNotRecognised(id: string)
    requires forall k :: 0 <= k < |id| ==> id[k] != '/'
    ensures ExtractVideoId(GetYouTubeEmbedUrl(id)).None?
  {
    var url := GetYouTubeEmbedUrl(id);
    var n := |EmbedPrefix|;
    assert url[..n] == EmbedPrefix;
    EmbedHostMatchesNothing(url, WatchPrefixes);
    EmbedHostMatchesNothing(url, LegacyPrefixes);
  }

  /** No recognised prefix starts inside the embed host `https://www.youtube-nocookie.com/embed/`. */
  lemma EmbedHostMatchesNothing(url: string, pats: seq<string>)
    requires |url| >= |EmbedPrefix| && url[..|EmbedPrefix|] == EmbedPrefix
    requires forall k :: |EmbedPrefix| <= k < |url| ==> url[k] != '/'
    requires pats == WatchPrefixes || pats == LegacyPrefixes
    ensures Search(url, pats, VideoIdChar).None?
  {
    var n := |EmbedPrefix|;
    NoMatchPastChar(url, n, pats, VideoIdChar, '/');
    EmbedHostHasOneY(url);
    forall j | 0 <= j < n
      ensures MatchAt(url, j, pats, VideoIdChar).None?
    {
      if j == 12 {
        EmbedHostAt12(url, pats);
      } else {
        NoMatchAtForeignChar(url, j, pats, VideoIdChar);
      }
    }
    SearchFindsNothing(url, pats, VideoIdChar);
  }

  /** The only `y` of the embed host is the one that starts `youtube-nocookie`. */
  lemma EmbedHostHasOneY(url: string)
    requires |url| >= |EmbedPrefix| && url[..|EmbedPrefix|] == EmbedPrefix
    ensures forall j :: 0 <= j < |EmbedPrefix| && j != 12 ==> url[j] != 'y'
  {
    forall j | 0 <= j < |EmbedPrefix| && j != 12
      ensures url[j] != 'y'
    {
      assert url[j] == EmbedPrefix[j];
    }
  }

  /** At the `y` of `youtube-nocookie`, every recognised prefix fails: `youtu.be/` on
      its sixth character and the `youtube.com/` ones on their eighth. */
  lemma EmbedHostAt12(url: string, pats: seq<string>)
    requires |url| >= |EmbedPrefix| && url[..|EmbedPrefix|] == EmbedPrefix
    requires pats == WatchPrefixes || pats == LegacyPrefixes
    ensures MatchAt(url, 12, pats, VideoIdChar).None?
  {
    assert url[17] == EmbedPrefix[17] == 'b';
    assert url[19] == EmbedPrefix[19] == '-';
    forall k | 0 <= k < |pats|
      ensures CaptureAt(url, 12, pats[k], VideoIdChar).None?
    {
      if 12 + |pats[k]| <= |url| {
        assert url[12..12 + |pats[k]|][5] == url[17];
        assert url[12..12 + |pats[k]|][7] == url[19];
      }
    }
  }
}
