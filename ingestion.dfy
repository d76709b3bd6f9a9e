/**
 * server/routes.ts `fetchChannelVideos`: the background job started for a new channel.
 * It pages through the channel's uploads (at most 25 per page, stopping once 50 are
 * collected), asks for the details of all of them in one request, drops the Shorts
 * (under 60 seconds) and stores the rest.  The answers of the YouTube Data API are
 * parameters: `pages[k]` answers the k-th search request, `details` answers the
 * details request for a comma-separated id list.
 */
module Ingestion {
  import opened Wrappers
  import opened Schema
  import opened Storage
  import opened Duration
  import opened VideoUrls
  import opened ChannelMetadata

  /** Most uploads collected before the paging stops. */
  const MaxVideos := 50

  /** `maxResults` of each search request. */
  const PageSize := 25

  /** Shortest duration, in seconds, of a video that is kept. */
  const MinSeconds := 60

  /** One search hit; `id.videoId` is `None` when it is absent. */
  datatype SearchItem = SearchItem(videoId: Option<string>)

  /** Answer to one search request: it threw (network failure or unreadable JSON), was
      not ok, or was ok with its items (a missing `items` is the empty list) and its
      `nextPageToken` (missing is `""`). */
  datatype PageResponse = PageThrew | PageNotOk | PageOk(items: seq<SearchItem>, nextPageToken: string)

  /** One item of the `videos?part=contentDetails,snippet` answer; `mediumThumbnail` is
      `snippet.thumbnails.medium?.url`. */
  datatype VideoDetail = VideoDetail(id: string, title: string, duration: string,
                                     mediumThumbnail: Option<string>, publishedAt: Option<string>)

  datatype DetailsResponse = DetailsThrew | DetailsNotOk | DetailsOk(items: seq<VideoDetail>)

  /** The items of a run of successful pages, concatenated. */
  function Flatten(pages: seq<PageResponse>): (all: seq<SearchItem>)
    requires forall k :: 0 <= k < |pages| ==> pages[k].PageOk?
  {
    if |pages| == 0 then [] else pages[0].items + Flatten(pages[1..])
  }

  /** The paging loop from request `k` on, `count` items having been collected so far:
      `None` when a request throws (the job's `catch` ends it), otherwise the items
      still to come.  A page that is not ok, an empty token or reaching `MaxVideos`
      ends the loop; so does running out of answers. */
  function CollectFrom(pages: seq<PageResponse>, k: nat, count: nat): (r: Option<seq<SearchItem>>)
    requires k <= |pages|
    decreases |pages| - k
  {
    if k == |pages| then Some([])
    else
      match pages[k]
      case PageThrew => None
      case PageNotOk => Some([])
      case PageOk(items, token) =>
        if count + |items| >= MaxVideos || token == "" then Some(items)
        else
          match CollectFrom(pages, k + 1, count + |items|)
          case None => None
          case Some(rest) => Some(items + rest)
  }


  /** Pages `k` to `n - 1` were all ok. */
  predicate OkRun(pages: seq<PageResponse>, k: nat, n: nat) {
    k <= n <= |pages| && forall j :: k <= j < n ==> pages[j].PageOk?
  }

  /** Why a paging loop that started at request `k` with `count` uploads stopped after
      the ok pages `k` to `n - 1`: every page but the last had a token and the total
      before the last page was under `MaxVideos`; and the answers ran out, page `n` was
      not ok, or the last page had no token or brought the total to `MaxVideos`. */
  predicate StopsAfter(pages: seq<PageResponse>, k: nat, count: nat, n: nat)
    requires OkRun(pages, k, n)
  {
    && (forall j :: k <= j && j + 1 < n ==> pages[j].nextPageToken != "")
    && (n > k ==> count + |Flatten(pages[k..n - 1])| < MaxVideos)
    && (n == |pages| || pages[n].PageNotOk?
        || (n > k && (pages[n - 1].nextPageToken == "" || count + |Flatten(pages[k..n])| >= MaxVideos)))
  }

  /** What the paging collects is the items of a run of ok pages starting with the
      first one it asks for, and the run stops exactly as the loop's conditions say. */
  lemma {:induction false} CollectFromPrefix(pages: seq<PageResponse>, k: nat, count: nat)
    returns (n: nat)
    requires k <= |pages| && count < MaxVideos && CollectFrom(pages, k, count).Some?
    ensures OkRun(pages, k, n) && CollectFrom(pages, k, count).value == Flatten(pages[k..n])
    ensures StopsAfter(pages, k, count, n)
    decreases |pages| - k
  {
    if k == |pages| || pages[k].PageNotOk? {
      n := k;
      assert CollectFrom(pages, k, count).value == Flatten(pages[k..k]);
    } else {
      var items := pages[k].items;
      var more := count + |items|;
      assert pages[k..k + 1][1..] == [];
      assert Flatten(pages[k..k + 1]) == items;
      assert Flatten(pages[k..k]) == [];
      if more >= MaxVideos || pages[k].nextPageToken == "" {
        n := k + 1;
        assert CollectFrom(pages, k, count).value == Flatten(pages[k..k + 1]);
      } else {
        n := CollectFromPrefix(pages, k + 1, more);
        FlattenCons(pages, k, n);
        assert CollectFrom(pages, k, count).value == Flatten(pages[k..n]);
        if n - 1 > k {
          FlattenCons(pages, k, n - 1);
        } else {
          assert Flatten(pages[k..n - 1]) == [];
        }
      }
    }
  }

  /** A run of ok pages from `k` is the first page's items, then the rest of the run. */
  lemma FlattenCons(pages: seq<PageResponse>, k: nat, n: nat)
    requires k < n <= |pages| && forall j :: k <= j < n ==> pages[j].PageOk?
    ensures Flatten(pages[k..n]) == pages[k].items + Flatten(pages[k + 1..n])
  {
    assert pages[k..n][1..] == pages[k + 1..n];
  }

  /** With pages of at most `PageSize` items, the loop stops before `MaxVideos + PageSize`:
      it only asks for another page while under `MaxVideos`. */
  lemma {:induction false} CollectFromBound(pages: seq<PageResponse>, k: nat, count: nat)
    requires k <= |pages| && count < MaxVideos
    requires forall j :: 0 <= j < |pages| && pages[j].PageOk? ==> |pages[j].items| <= PageSize
    requires CollectFrom(pages, k, count).Some?
    ensures count + |CollectFrom(pages, k, count).value| < MaxVideos + PageSize
    decreases |pages| - k
  {
    if k < |pages| && pages[k].PageOk? {
      var items := pages[k].items;
      if !(count + |items| >= MaxVideos || pages[k].nextPageToken == "") {
        CollectFromBound(pages, k + 1, count + |items|);
      }
    }
  }

  /** At most 74 uploads are ever collected. */
  lemma PaginateBound(pages: seq<PageResponse>)
    requires forall j :: 0 <= j < |pages| && pages[j].PageOk? ==> |pages[j].items| <= PageSize
    requires Paginate(pages).Some?
    ensures |Paginate(pages).value| < MaxVideos + PageSize
  {
    CollectFromBound(pages, 0, 0);
  }

  /** The loop that started at request `k` with `count` uploads gets as far as request
      `n` and that request throws: pages `k` to `n - 1` were ok, each had a token, and
      together they stayed under `MaxVideos`, so the loop asked for page `n`. */
  predicate ReachesThrow(pages: seq<PageResponse>, k: nat, count: nat, n: nat) {
    && OkRun(pages, k, n) && n < |pages| && pages[n].PageThrew?
    && (forall j :: k <= j < n ==> pages[j].nextPageToken != "")
    && count + |Flatten(pages[k..n])| < MaxVideos
  }

  /** The paging ends in `None` exactly when a request the loop actually makes throws;
      a throw in an answer it never asks for changes nothing. */
  lemma {:induction false} CollectFromNoneIff(pages: seq<PageResponse>, k: nat, count: nat)
    requires k <= |pages| && count < MaxVideos
    ensures CollectFrom(pages, k, count).None? <==> exists n: nat :: ReachesThrow(pages, k, count, n)
    decreases |pages| - k
  {
    if k == |pages| {
    } else if pages[k].PageThrew? {
      assert Flatten(pages[k..k]) == [];
      assert ReachesThrow(pages, k, count, k);
    } else if pages[k].PageNotOk? {
    } else {
      var items := pages[k].items;
      var more := count + |items|;
      if more >= MaxVideos || pages[k].nextPageToken == "" {
        forall n: nat | ReachesThrow(pages, k, count, n)
          ensures false
        {
          FlattenCons(pages, k, n);
        }
      } else {
        CollectFromNoneIff(pages, k + 1, more);
        if CollectFrom(pages, k + 1, more).None? {
          var n: nat :| ReachesThrow(pages, k + 1, more, n);
          FlattenCons(pages, k, n);
          assert ReachesThrow(pages, k, count, n);
        } else {
          forall n: nat | ReachesThrow(pages, k, count, n)
            ensures false
          {
            FlattenCons(pages, k, n);
            assert ReachesThrow(pages, k + 1, more, n);
          }
        }
      }
    }
  }

  /** The paging from the first request, as a run of ok pages. */
  lemma CollectFromFirst(pages: seq<PageResponse>)
    requires CollectFrom(pages, 0, 0).Some?
    ensures exists n: nat :: OkRun(pages, 0, n) && CollectFrom(pages, 0, 0).value == Flatten(pages[..n])
                        && StopsAfter(pages, 0, 0, n)
  {
    var n := CollectFromPrefix(pages, 0, 0);
    assert pages[0..n] == pages[..n];
  }

  /** The uploads the paging loop collects: the items of a run of ok pages from the
      first, in order and without removing repeats, stopped as the loop's conditions
      say; `None` exactly when a request the loop makes throws. */
  function Paginate(pages: seq<PageResponse>): (r: Option<seq<SearchItem>>)
    ensures r.Some? ==> exists n: nat :: OkRun(pages, 0, n) && r.value == Flatten(pages[..n])
                                    && StopsAfter(pages, 0, 0, n)
    ensures r.None? <==> exists n: nat :: ReachesThrow(pages, 0, 0, n)
  {
    var r := CollectFrom(pages, 0, 0);
    CollectFromNoneIff(pages, 0, 0);
    if r.Some? then
      CollectFromFirst(pages);
      r
    else
      r
  }

  /** An upload listing that always has a next page and fills every page: the loop
      stops after the second page, with exactly `MaxVideos` uploads. */
  lemma FullPagesStopAtCap(pages: seq<PageResponse>)
    requires |pages| >= 2
    requires forall j :: 0 <= j < |pages| ==>
               pages[j].PageOk? && |pages[j].items| == PageSize && pages[j].nextPageToken != ""
    ensures Paginate(pages) == Some(pages[0].items + pages[1].items)
    ensures |Paginate(pages).value| == MaxVideos
  {
    assert CollectFrom(pages, 1, PageSize) == Some(pages[1].items);
  }

  /** The `do … while` paging loop of `fetchChannelVideos`. */
  method FetchVideoList(pages: seq<PageResponse>) returns (outcome: Option<seq<SearchItem>>)
    ensures outcome == Paginate(pages)
  {
    var all: seq<SearchItem> := [];
    var k := 0;
    var more := true;
    assert CollectFrom(pages, 0, 0).Some? ==> all + CollectFrom(pages, 0, 0).value == CollectFrom(pages, 0, 0).value;
    while more
      invariant k <= |pages|
      invariant more ==> |all| < MaxVideos
      invariant more ==> (match CollectFrom(pages, k, |all|)
                          case None => Paginate(pages).None?
                          case Some(rest) => Paginate(pages) == Some(all + rest))
      invariant !more ==> Paginate(pages) == Some(all)
      decreases |pages| - k, more
    {
      if k == |pages| {
        assert all + [] == all;
        more := false;
      } else {
        match pages[k]
        case PageThrew =>
          return None;
        case PageNotOk =>
          assert all + [] == all;
          more := false;
        case PageOk(items, token) =>
          ghost var rest := CollectFrom(pages, k + 1, |all| + |items|);
          all := all + items;
          k := k + 1;
          if |all| >= MaxVideos || token == "" {
            more := false;
          } else if rest.Some? {
            assert (all[..|all| - |items|] + items) + rest.value == all[..|all| - |items|] + (items + rest.value);
          }
      }
    }
    return Some(all);
  }

  /** `allVideos.map(video => video.id.videoId).filter(id => id)`: the present,
      non-empty ids in order. */
  function VideoIds(items: seq<SearchItem>): (ids: seq<string>)
    ensures forall i :: 0 <= i < |ids| ==> ids[i] != ""
    ensures forall id :: id in ids <==> id != "" && SearchItem(Some(id)) in items
  {
    if |items| == 0 then []
    else
      var init := VideoIds(items[..|items| - 1]);
      var last := items[|items| - 1];
      assert items == items[..|items| - 1] + [last];
      if last.videoId.Some? && last.videoId.value != "" then init + [last.videoId.value] else init
  }

  /** The id list of uploads listed one after another is the id list of the first,
      then that of the second: order and repeats are kept. */
  lemma {:induction false} VideoIdsAppend(a: seq<SearchItem>, b: seq<SearchItem>)
    ensures VideoIds(a + b) == VideoIds(a) + VideoIds(b)
    decreases |b|
  {
    if |b| == 0 {
      assert a + b == a;
    } else {
      var b' := b[..|b| - 1];
      assert (a + b)[..|a + b| - 1] == a + b';
      VideoIdsAppend(a, b');
    }
  }

  /** The id list of one upload: its id when present and non-empty, nothing otherwise. */
  lemma VideoIdsOne(item: SearchItem)
    ensures VideoIds([item]) == if item.videoId.Some? && item.videoId.value != "" then [item.videoId.value] else []
  {
    assert [item][..0] == [];
  }

  /** `ids.join(',')`. */
  function Join(ids: seq<string>): (s: string)
    ensures |s| >= |ids| - 1
    ensures |ids| > 0 ==> |s| >= |ids[|ids| - 1]|
  {
    if |ids| == 0 then ""
    else if |ids| == 1 then ids[0]
    else Join(ids[..|ids| - 1]) + "," + ids[|ids| - 1]
  }

  predicate NoComma(t: string) {
    forall k :: 0 <= k < |t| ==> t[k] != ','
  }

  /** Position of the last comma of `t`, if any. */
  function LastComma(t: string): (r: Option<nat>)
    ensures r.Some? ==> r.value < |t| && t[r.value] == ','
                        && forall j :: r.value < j < |t| ==> t[j] != ','
    ensures r.None? ==> NoComma(t)
    decreases |t|
  {
    if |t| == 0 then None
    else if t[|t| - 1] == ',' then Some(|t| - 1)
    else LastComma(t[..|t| - 1])
  }

  /** `t.split(',')`: the pieces between commas, in order. */
  function Split(t: string): (pieces: seq<string>)
    ensures |pieces| > 0
    decreases |t|
  {
    match LastComma(t)
    case None => [t]
    case Some(i) => Split(t[..i]) + [t[i + 1..]]
  }

  /** A comma with no comma after it is the last comma. */
  lemma LastCommaAt(t: string, i: nat)
    requires i < |t| && t[i] == ',' && forall j :: i < j < |t| ==> t[j] != ','
    ensures LastComma(t) == Some(i)
  {
    var r := LastComma(t);
    assert !NoComma(t) by {
      assert t[i] == ',';
    }
    var k := r.value;
    assert t[k] == ',';
    assert i <= k;
  }

  /** Appending a comma-free piece adds no comma. */
  lemma CommaFreeTail(front: string, last: string)
    requires NoComma(last)
    ensures forall j :: |front| <= j < |front + last| ==> (front + last)[j] != ','
  {
    forall j | |front| <= j < |front + last|
      ensures (front + last)[j] != ','
    {
      assert (front + last)[j] == last[j - |front|];
    }
  }

  /** The comma in front of a comma-free last piece is the last comma. */
  lemma LastCommaBefore(head: string, last: string)
    requires NoComma(last)
    ensures LastComma(head + "," + last) == Some(|head|)
  {
    var front := head + ",";
    assert |front| == |head| + 1 && front[|head|] == ',';
    CommaFreeTail(front, last);
    LastCommaAt(front + last, |head|);
  }

  /** Round trip: splitting the joined list at its commas gives the ids back, when no
      id holds a comma. */
  lemma {:induction false} SplitJoin(ids: seq<string>)
    requires |ids| > 0 && forall i :: 0 <= i < |ids| ==> NoComma(ids[i])
    ensures Split(Join(ids)) == ids
    decreases |ids|
  {
    if |ids| == 1 {
      assert LastComma(ids[0]).None?;
    } else {
      var init, last := ids[..|ids| - 1], ids[|ids| - 1];
      var t := Join(init) + "," + last;
      LastCommaBefore(Join(init), last);
      assert t[..|Join(init)|] == Join(init);
      assert t[|Join(init)| + 1..] == last;
      SplitJoin(init);
    }
  }

  /** `if (videoIds)`: the joined list of non-empty ids is non-empty exactly when at
      least one id survived the filter. */
  lemma JoinEmptyIff(ids: seq<string>)
    requires forall i :: 0 <= i < |ids| ==> ids[i] != ""
    ensures Join(ids) == "" <==> |ids| == 0
  {
    if |ids| == 1 {
      assert ids[0] != "";
    }
  }

  /** The `videoData` built for one details item. */
  function ToInsertVideo(d: VideoDetail, channelName: string): (v: InsertVideo)
    ensures v.videoId == d.id && v.url == WatchUrl(d.id) && v.channelName == channelName
    ensures v.duration == Some(d.duration) && v.publishedAt == d.publishedAt
    ensures v.title == d.title && v.thumbnail == OrNull(d.mediumThumbnail)
    ensures v.thumbnail.Some? ==> v.thumbnail == d.mediumThumbnail && v.thumbnail != Some("")
  {
    InsertVideo(d.title, d.id, channelName, WatchUrl(d.id), OrNull(d.mediumThumbnail), Some(d.duration), d.publishedAt)
  }

  predicate IsLongForm(d: VideoDetail) {
    ParseDuration(d.duration) >= MinSeconds
  }

  /** The records the details loop stores, in order: one per item that is not a Short,
      each a long-form record of the channel with the item's own duration. */
  function LongFormRecords(items: seq<VideoDetail>, channelName: string): (rs: seq<InsertVideo>)
    ensures |rs| <= |items|
    ensures forall i :: 0 <= i < |rs| ==> rs[i].channelName == channelName && rs[i].duration.Some?
                                          && ParseDuration(rs[i].duration.value) >= MinSeconds
    decreases |items|
  {
    if |items| == 0 then []
    else
      var init := LongFormRecords(items[..|items| - 1], channelName);
      var last := items[|items| - 1];
      if IsLongForm(last) then init + [ToInsertVideo(last, channelName)] else init
  }

  /** No long-form item is lost and nothing else is kept: the records are exactly those
      of the items of a minute or more. */
  lemma {:induction false} LongFormRecordsExact(items: seq<VideoDetail>, channelName: string)
    ensures forall d :: d in items && IsLongForm(d) ==> ToInsertVideo(d, channelName) in LongFormRecords(items, channelName)
    ensures forall r :: r in LongFormRecords(items, channelName) ==>
              exists d :: d in items && IsLongForm(d) && r == ToInsertVideo(d, channelName)
    decreases |items|
  {
    if |items| > 0 {
      var init := items[..|items| - 1];
      LongFormRecordsExact(init, channelName);
      assert items == init + [items[|items| - 1]];
    }
  }

  /** Every stored record is at least a minute long, belongs to the channel and keeps a
      watch URL from which `extractVideoId` recovers its id. */
  lemma LongFormRecordsSound(items: seq<VideoDetail>, channelName: string)
    ensures forall r :: r in LongFormRecords(items, channelName) ==>
              r.duration.Some? && ParseDuration(r.duration.value) >= MinSeconds
              && r.channelName == channelName && r.url == WatchUrl(r.videoId)
    ensures forall r :: r in LongFormRecords(items, channelName) && IsVideoId(r.videoId) ==>
              ExtractVideoId(r.url) == Some(r.videoId)
  {
    LongFormRecordsExact(items, channelName);
    forall r | r in LongFormRecords(items, channelName) && IsVideoId(r.videoId)
      ensures ExtractVideoId(r.url) == Some(r.videoId)
    {
      WatchUrlRoundTrip(r.videoId);
    }
  }

  /** A 30-second Short, a one-minute video and a 59-second clip: only the one-minute
      video is stored. */
  lemma ShortsDropped(items: seq<VideoDetail>, channelName: string)
    requires |items| == 3
    requires ParseDuration(items[0].duration) == 30
    requires ParseDuration(items[1].duration) == 60
    requires ParseDuration(items[2].duration) == 59
    ensures LongFormRecords(items, channelName) == [ToInsertVideo(items[1], channelName)]
  {
    assert !IsLongForm(items[0]) && IsLongForm(items[1]) && !IsLongForm(items[2]);
    assert items[..0] == [];
    LongFormRecordsStep(items, 0, channelName);
    LongFormRecordsStep(items, 1, channelName);
    LongFormRecordsStep(items, 2, channelName);
    assert items[..3] == items;
  }

  /** The records of one more item: its record, if it is long-form, comes last. */
  lemma LongFormRecordsStep(items: seq<VideoDetail>, i: nat, channelName: string)
    requires i < |items|
    ensures LongFormRecords(items[..i + 1], channelName)
            == LongFormRecords(items[..i], channelName)
               + (if IsLongForm(items[i]) then [ToInsertVideo(items[i], channelName)] else [])
  {
    assert items[..i + 1][..i] == items[..i];
  }

  /** Storing one more record appends it with the next key. */
  lemma StoredVideosAppend(firstId: int, inputs: seq<InsertVideo>, input: InsertVideo)
    ensures StoredVideos(firstId, inputs + [input])
            == StoredVideos(firstId, inputs) + [StoredVideo(firstId + |inputs|, input)]
  {
    assert (inputs + [input])[..|inputs|] == inputs;
  }

  /** Storing a record after `before`, or not, appends it with the next key, or nothing. */
  lemma StoredVideosExtend(prior: seq<Video>, firstId: int, before: seq<InsertVideo>, long: bool, input: InsertVideo)
    ensures prior + StoredVideos(firstId, before + (if long then [input] else []))
            == prior + StoredVideos(firstId, before)
               + (if long then [StoredVideo(firstId + |before|, input)] else [])
  {
    if long {
      StoredVideosAppend(firstId, before, input);
    } else {
      assert before + [] == before;
    }
  }

  /** One turn of the details loop keeps the store equal to the records of the items
      seen so far, stored one after another. */
  lemma SavedAfterStep(prior: seq<Video>, firstId: int, items: seq<VideoDetail>, i: nat, channelName: string,
                       stored: bool, stock: seq<Video>, videos: seq<Video>)
    requires i < |items| && stored == IsLongForm(items[i])
    requires stock == prior + StoredVideos(firstId, LongFormRecords(items[..i], channelName))
    requires videos == stock + (if stored then [StoredVideo(firstId + |LongFormRecords(items[..i], channelName)|,
                                                           ToInsertVideo(items[i], channelName))] else [])
    ensures videos == prior + StoredVideos(firstId, LongFormRecords(items[..i + 1], channelName))
    ensures |LongFormRecords(items[..i + 1], channelName)| == |LongFormRecords(items[..i], channelName)| + (if stored then 1 else 0)
  {
    var input := ToInsertVideo(items[i], channelName);
    LongFormRecordsStep(items, i, channelName);
    StoredVideosExtend(prior, firstId, LongFormRecords(items[..i], channelName), stored, input);
  }

  /** One turn of the details loop: item `i` is stored when it is not a Short, so the
      store holds the records of the items seen so far, one after another. */
  method SaveNext(store: MemStorage, items: seq<VideoDetail>, i: nat, channelName: string,
                  ghost prior: seq<Video>, ghost firstId: int) returns (stored: bool)
    requires i < |items| && store.Valid()
    requires store.videos == prior + StoredVideos(firstId, LongFormRecords(items[..i], channelName))
    requires store.currentVideoId == firstId + |LongFormRecords(items[..i], channelName)|
    modifies store
    ensures store.Valid()
    ensures stored == IsLongForm(items[i])
    ensures store.videos == prior + StoredVideos(firstId, LongFormRecords(items[..i + 1], channelName))
    ensures |LongFormRecords(items[..i + 1], channelName)| == |LongFormRecords(items[..i], channelName)| + (if stored then 1 else 0)
    ensures store.currentVideoId == old(store.currentVideoId) + (if stored then 1 else 0)
    ensures store.channels == old(store.channels) && store.currentChannelId == old(store.currentChannelId)
  {
    ghost var stock := store.videos;
    ghost var before := LongFormRecords(items[..i], channelName);
    var d := items[i];
    if ParseDuration(d.duration) < MinSeconds {
      stored := false;
      assert store.videos == stock + [];
    } else {
      var v := store.CreateVideo(ToInsertVideo(d, channelName));
      stored := true;
      assert v == StoredVideo(firstId + |before|, ToInsertVideo(d, channelName));
    }
    SavedAfterStep(prior, firstId, items, i, channelName, stored, stock, store.videos);
  }

  /** The details loop: each long-form item is stored with `createVideo`, in order. */
  method SaveLongFormVideos(store: MemStorage, items: seq<VideoDetail>, channelName: string) returns (saved: nat)
    requires store.Valid()
    modifies store
    ensures store.Valid()
    ensures saved == |LongFormRecords(items, channelName)|
    ensures store.videos == old(store.videos) + StoredVideos(old(store.currentVideoId), LongFormRecords(items, channelName))
    ensures store.currentVideoId == old(store.currentVideoId) + saved
    ensures store.channels == old(store.channels) && store.currentChannelId == old(store.currentChannelId)
  {
    saved := 0;
    var i := 0;
    while i < |items|
      invariant 0 <= i <= |items|
      invariant store.Valid()
      invariant saved == |LongFormRecords(items[..i], channelName)|
      invariant store.videos == old(store.videos) + StoredVideos(old(store.currentVideoId), LongFormRecords(items[..i], channelName))
      invariant store.currentVideoId == old(store.currentVideoId) + saved
      invariant store.channels == old(store.channels) && store.currentChannelId == old(store.currentChannelId)
    {
      var stored := SaveNext(store, items, i, channelName, old(store.videos), old(store.currentVideoId));
      if stored {
        saved := saved + 1;
      }
      i := i + 1;
    }
    assert items[..i] == items;
  }

  /** The comma-separated ids the details request is made for, or `None` when no such
      request is made: no key, a search request threw, or no upload had an id. */
  function DetailsQuery(apiKey: Option<string>, pages: seq<PageResponse>): (q: Option<string>)
    ensures q.Some? ==> q.value != ""
  {
    if !HasApiKey(apiKey) then None
    else
      match Paginate(pages)
      case None => None
      case Some(all) =>
        JoinEmptyIff(VideoIds(all));
        var ids := Join(VideoIds(all));
        if ids == "" then None else Some(ids)
  }

  /** The details request is made exactly when the key is set, the paging finished and
      some collected upload carried an id. */
  lemma DetailsQueriedIff(apiKey: Option<string>, pages: seq<PageResponse>)
    ensures DetailsQuery(apiKey, pages).Some? <==>
            HasApiKey(apiKey) && Paginate(pages).Some?
            && exists id :: id != "" && SearchItem(Some(id)) in Paginate(pages).value
  {
    if HasApiKey(apiKey) && Paginate(pages).Some? {
      var ids := VideoIds(Paginate(pages).value);
      JoinEmptyIff(ids);
      if |ids| > 0 {
        assert ids[0] in ids;
      }
    }
  }

  /** Everything the job stores, in order: nothing unless the details request was made
      and answered ok, and then only long-form records of the channel. */
  function JobRecords(apiKey: Option<string>, pages: seq<PageResponse>, details: string -> DetailsResponse,
                      channelName: string): (rs: seq<InsertVideo>)
    ensures |rs| > 0 ==> DetailsQuery(apiKey, pages).Some? && details(DetailsQuery(apiKey, pages).value).DetailsOk?
    ensures forall r :: r in rs ==> r.channelName == channelName && r.duration.Some?
                                    && ParseDuration(r.duration.value) >= MinSeconds
  {
    match DetailsQuery(apiKey, pages)
    case None => []
    case Some(q) =>
      match details(q)
      case DetailsOk(items) => LongFormRecords(items, channelName)
      case _ => []
  }

  /** `fetchChannelVideos`: nothing is stored without a key, when a request throws or
      when the details request fails; otherwise the long-form uploads are stored. */
  method FetchChannelVideos(store: MemStorage, channelName: string, apiKey: Option<string>,
                            pages: seq<PageResponse>, details: string -> DetailsResponse) returns (saved: nat)
    requires store.Valid()
    modifies store
    ensures store.Valid()
    ensures saved == |JobRecords(apiKey, pages, details, channelName)|
    ensures store.videos == old(store.videos)
                            + StoredVideos(old(store.currentVideoId), JobRecords(apiKey, pages, details, channelName))
    ensures store.currentVideoId == old(store.currentVideoId) + saved
    ensures store.channels == old(store.channels) && store.currentChannelId == old(store.currentChannelId)
  {
    if !HasApiKey(apiKey) {
      return 0;
    }
    var listed := FetchVideoList(pages);
    if listed.None? {
      return 0;
    }
    var ids := Join(VideoIds(listed.value));
    if ids == "" {
      return 0;
    }
    match details(ids)
    case DetailsOk(items) =>
      saved := SaveLongFormVideos(store, items, channelName);
    case _ =>
      saved := 0;
  }
}
