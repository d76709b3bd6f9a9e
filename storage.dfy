/**
 * server/storage.ts, class `MemStorage`: the in-memory store of channels and videos.
 * Each JavaScript `Map<number, …>` is a sequence of records in insertion order; since
 * every key comes from a counter that only grows, insertion order is ascending key
 * order and keys are unique, as in a `Map`.  The user table is not part of this model.
 */
module Storage {
  import opened Wrappers
  import opened Schema

  /** Keys strictly ascending, each at least 1 and below the next key to hand out. */
  ghost predicate KeyedBelow<T>(s: seq<T>, key: T -> int, next: int)
  {
    (forall i, j :: 0 <= i < j < |s| ==> key(s[i]) < key(s[j]))
    && (forall i :: 0 <= i < |s| ==> 1 <= key(s[i]) < next)
  }

  /** Position of the entry with key `id`, if any (`Map.has`). */
  function KeyIndex<T>(s: seq<T>, key: T -> int, id: int): (r: Option<nat>)
    ensures r.Some? ==> r.value < |s| && key(s[r.value]) == id
    ensures r.None? ==> forall k :: 0 <= k < |s| ==> key(s[k]) != id
  {
    if |s| == 0 then None
    else if key(s[|s| - 1]) == id then Some(|s| - 1)
    else KeyIndex(s[..|s| - 1], key, id)
  }

  /** `Map.delete(id)`: the entry with key `id` leaves, the rest keep their order. */
  function Delete<T>(s: seq<T>, key: T -> int, id: int): (r: seq<T>)
    ensures KeyIndex(s, key, id).None? ==> r == s
    ensures KeyIndex(s, key, id).Some? ==> |r| == |s| - 1
  {
    match KeyIndex(s, key, id)
    case None => s
    case Some(k) => s[..k] + s[k + 1..]
  }

  /** Removing the entry at `k` shifts every later entry down by one. */
  lemma RemovedAt<T>(s: seq<T>, k: nat) returns (r: seq<T>)
    requires k < |s|
    ensures r == s[..k] + s[k + 1..] && |r| == |s| - 1
    ensures forall i :: 0 <= i < k ==> r[i] == s[i]
    ensures forall i :: k <= i < |r| ==> r[i] == s[i + 1]
  {
    r := s[..k] + s[k + 1..];
  }

  /** Removing one entry keeps the others' keys ascending. */
  lemma RemovedStaysAscending<T>(s: seq<T>, key: T -> int, k: nat)
    requires k < |s| && forall i, j :: 0 <= i < j < |s| ==> key(s[i]) < key(s[j])
    ensures var r := s[..k] + s[k + 1..]; forall i, j :: 0 <= i < j < |r| ==> key(r[i]) < key(r[j])
  {
    var r := RemovedAt(s, k);
    forall i, j | 0 <= i < j < |r|
      ensures key(r[i]) < key(r[j])
    {
      var i', j' := if i < k then i else i + 1, if j < k then j else j + 1;
      assert r[i] == s[i'] && r[j] == s[j'];
    }
  }

  /** Removing one entry keeps the others' keys within their bounds. */
  lemma RemovedStaysBelow<T>(s: seq<T>, key: T -> int, next: int, k: nat)
    requires k < |s| && forall i :: 0 <= i < |s| ==> 1 <= key(s[i]) < next
    ensures var r := s[..k] + s[k + 1..]; forall i :: 0 <= i < |r| ==> 1 <= key(r[i]) < next
  {
    var r := RemovedAt(s, k);
    forall i | 0 <= i < |r|
      ensures 1 <= key(r[i]) < next
    {
      var i' := if i < k then i else i + 1;
      assert r[i] == s[i'];
    }
  }

  /** Deleting keeps keys ascending and below the counter. */
  lemma DeleteKeepsKeys<T>(s: seq<T>, key: T -> int, next: int, id: int)
    requires KeyedBelow(s, key, next)
    ensures KeyedBelow(Delete(s, key, id), key, next)
  {
    match KeyIndex(s, key, id)
    case None =>
    case Some(k) =>
      RemovedStaysAscending(s, key, k);
      RemovedStaysBelow(s, key, next, k);
  }

  /** After a delete no entry has key `id`, and every entry with another key is still
      there: exactly the one entry is removed. */
  lemma DeleteRemovesExactlyKey<T>(s: seq<T>, key: T -> int, next: int, id: int)
    requires KeyedBelow(s, key, next)
    ensures forall x :: x in Delete(s, key, id) ==> key(x) != id
    ensures forall x :: x in s && key(x) != id ==> x in Delete(s, key, id)
  {
    match KeyIndex(s, key, id)
    case None =>
    case Some(k) =>
      var r := RemovedAt(s, k);
      forall x | x in r
        ensures key(x) != id
      {
        var i :| 0 <= i < |r| && r[i] == x;
        var i' := if i < k then i else i + 1;
        assert r[i] == s[i'] && i' != k;
      }
      forall x | x in s && key(x) != id
        ensures x in r
      {
        var i :| 0 <= i < |s| && s[i] == x;
        var i' := if i < k then i else i - 1;
        assert r[i'] == x;
      }
  }

  /** `Map.set` with a key from the counter appends, and the keys stay ascending. */
  lemma AppendFreshKeepsKeys<T>(s: seq<T>, key: T -> int, next: int, x: T)
    requires KeyedBelow(s, key, next) && key(x) == next && next >= 1
    ensures KeyedBelow(s + [x], key, next + 1)
  {
  }

  /** The videos of `vs` whose channel name is `name`, in their order
      (`Array.prototype.filter`). */
  function ByChannel(vs: seq<Video>, name: string): (r: seq<Video>)
    ensures |r| <= |vs|
    ensures forall v :: v in r <==> v in vs && v.channelName == name
  {
    if |vs| == 0 then []
    else
      var last := vs[|vs| - 1];
      var init := ByChannel(vs[..|vs| - 1], name);
      assert vs == vs[..|vs| - 1] + [last];
      if last.channelName == name then init + [last] else init
  }

  /** One more video of the sequence is filtered after those before it. */
  lemma ByChannelStep(vs: seq<Video>, i: nat, name: string)
    requires i < |vs|
    ensures ByChannel(vs[..i + 1], name)
            == ByChannel(vs[..i], name) + (if vs[i].channelName == name then [vs[i]] else [])
  {
    assert vs[..i + 1][..i] == vs[..i];
  }

  /** Filtering distributes over concatenation: a video stored later comes later in
      the channel's list. */
  lemma {:induction false} ByChannelAppend(a: seq<Video>, b: seq<Video>, name: string)
    ensures ByChannel(a + b, name) == ByChannel(a, name) + ByChannel(b, name)
    decreases |b|
  {
    if |b| == 0 {
      assert a + b == a;
    } else {
      var b' := b[..|b| - 1];
      assert (a + b)[..|a + b| - 1] == a + b';
      ByChannelAppend(a, b', name);
    }
  }

  /** The record `createVideo` stores for `input` under key `id`. */
  function StoredVideo(id: int, input: InsertVideo): (v: Video)
    ensures v.id == id && v.title == input.title && v.videoId == input.videoId
    ensures v.channelName == input.channelName && v.url == input.url
    ensures v.thumbnail == OrNull(input.thumbnail) && v.duration == OrNull(input.duration)
    ensures v.publishedAt == OrNull(input.publishedAt)
  {
    Video(id, input.title, input.videoId, input.channelName, input.url,
          OrNull(input.thumbnail), OrNull(input.duration), OrNull(input.publishedAt))
  }

  /** The records `createVideo` stores for `inputs`, one after another, from key `firstId`. */
  function StoredVideos(firstId: int, inputs: seq<InsertVideo>): (vs: seq<Video>)
    ensures |vs| == |inputs|
    decreases |inputs|
  {
    if |inputs| == 0 then []
    else StoredVideos(firstId, inputs[..|inputs| - 1]) + [StoredVideo(firstId + |inputs| - 1, inputs[|inputs| - 1])]
  }

  /** Input `i` of a run of inserts is stored as video `i`, under key `firstId + i`:
      consecutive keys, in input order. */
  lemma {:induction false} StoredVideosAt(firstId: int, inputs: seq<InsertVideo>, i: nat)
    requires i < |inputs|
    ensures StoredVideos(firstId, inputs)[i] == StoredVideo(firstId + i, inputs[i])
    decreases |inputs|
  {
    if i < |inputs| - 1 {
      var init := inputs[..|inputs| - 1];
      StoredVideosAt(firstId, init, i);
      assert init[i] == inputs[i];
    }
  }

  class MemStorage {
    var channels: seq<Channel>
    var videos: seq<Video>
    var currentChannelId: int
    var currentVideoId: int

    /** Keys are unique and ascending and every counter is above every key it issued. */
    ghost predicate Valid()
      reads this
    {
      1 <= currentChannelId && 1 <= currentVideoId
      && KeyedBelow(channels, ChannelKey, currentChannelId)
      && KeyedBelow(videos, VideoKey, currentVideoId)
    }

    constructor()
      ensures Valid()
      ensures channels == [] && videos == []
      ensures currentChannelId == 1 && currentVideoId == 1
    {
      channels := [];
      videos := [];
      currentChannelId := 1;
      currentVideoId := 1;
    }

    /** `getAllChannels`: every stored channel, in ascending id order. */
    method GetAllChannels() returns (all: seq<Channel>)
      requires Valid()
      ensures all == channels
      ensures forall i, j :: 0 <= i < j < |all| ==> all[i].id < all[j].id
    {
      all := channels;
    }

    /** `getAllVideos`: every stored video, in ascending id order. */
    method GetAllVideos() returns (all: seq<Video>)
      requires Valid()
      ensures all == videos
      ensures forall i, j :: 0 <= i < j < |all| ==> all[i].id < all[j].id
    {
      all := videos;
    }

    /** `getChannelByName`: the earliest stored channel with that name, or `undefined`. */
    method GetChannelByName(name: string) returns (found: Option<Channel>)
      ensures found.Some? ==> exists k :: 0 <= k < |channels| && channels[k] == found.value
                                          && found.value.name == name
                                          && forall j :: 0 <= j < k ==> channels[j].name != name
      ensures found.None? ==> forall k :: 0 <= k < |channels| ==> channels[k].name != name
    {
      var i := 0;
      while i < |channels|
        invariant 0 <= i <= |channels|
        invariant forall j :: 0 <= j < i ==> channels[j].name != name
      {
        if channels[i].name == name {
          return Some(channels[i]);
        }
        i := i + 1;
      }
      return None;
    }

    /** `getVideosByChannel`: the stored videos of one channel, in storage order. */
    method GetVideosByChannel(channelName: string) returns (found: seq<Video>)
      ensures found == ByChannel(videos, channelName)
    {
      found := [];
      var i := 0;
      while i < |videos|
        invariant 0 <= i <= |videos|
        invariant found == ByChannel(videos[..i], channelName)
      {
        ByChannelStep(videos, i, channelName);
        if videos[i].channelName == channelName {
          found := found + [videos[i]];
        }
        i := i + 1;
      }
      assert videos[..i] == videos;
    }

    /** `createChannel`: the next channel id, falsy optional columns stored as `null`. */
    method CreateChannel(input: InsertChannel) returns (c: Channel)
      requires Valid()
      modifies this
      ensures Valid()
      ensures c == Channel(old(currentChannelId), input.name, OrNull(input.profileImage),
                           OrNull(input.channelId), OrNull(input.description))
      ensures channels == old(channels) + [c] && currentChannelId == old(currentChannelId) + 1
      ensures forall x :: x in old(channels) ==> x.id < c.id
      ensures videos == old(videos) && currentVideoId == old(currentVideoId)
    {
      var id := currentChannelId;
      currentChannelId := currentChannelId + 1;
      c := Channel(id, input.name, OrNull(input.profileImage), OrNull(input.channelId), OrNull(input.description));
      AppendFreshKeepsKeys(channels, ChannelKey, id, c);
      channels := channels + [c];
    }

    /** `createVideo`: the next video id, falsy optional columns stored as `null`. */
    method CreateVideo(input: InsertVideo) returns (v: Video)
      requires Valid()
      modifies this
      ensures Valid()
      ensures v == StoredVideo(old(currentVideoId), input)
      ensures videos == old(videos) + [v] && currentVideoId == old(currentVideoId) + 1
      ensures forall x :: x in old(videos) ==> x.id < v.id
      ensures channels == old(channels) && currentChannelId == old(currentChannelId)
    {
      var id := currentVideoId;
      currentVideoId := currentVideoId + 1;
      v := StoredVideo(id, input);
      AppendFreshKeepsKeys(videos, VideoKey, id, v);
      videos := videos + [v];
    }

    /** `deleteChannel`: `true` exactly when a channel with that id was stored. */
    method DeleteChannel(id: int) returns (found: bool)
      requires Valid()
      modifies this
      ensures Valid()
      ensures found <==> exists k :: 0 <= k < |old(channels)| && old(channels)[k].id == id
      ensures channels == Delete(old(channels), ChannelKey, id)
      ensures videos == old(videos)
      ensures currentChannelId == old(currentChannelId) && currentVideoId == old(currentVideoId)
    {
      found := KeyIndex(channels, ChannelKey, id).Some?;
      DeleteKeepsKeys(channels, ChannelKey, currentChannelId, id);
      channels := Delete(channels, ChannelKey, id);
    }

    /** `deleteVideo`: `true` exactly when a video with that id was stored. */
    method DeleteVideo(id: int) returns (found: bool)
      requires Valid()
      modifies this
      ensures Valid()
      ensures found <==> exists k :: 0 <= k < |old(videos)| && old(videos)[k].id == id
      ensures videos == Delete(old(videos), VideoKey, id)
      ensures channels == old(channels)
      ensures currentChannelId == old(currentChannelId) && currentVideoId == old(currentVideoId)
    {
      found := KeyIndex(videos, VideoKey, id).Some?;
      DeleteKeepsKeys(videos, VideoKey, currentVideoId, id);
      videos := Delete(videos, VideoKey, id);
    }
  }
}
