/**
 * server/routes.ts `extractChannelId`: the part of a channel URL that names the
 * channel, taken from the first of four patterns (channel id, custom URL, legacy user
 * name, handle) that matches.
 */
module ChannelUrls {
  import opened Wrappers
  import opened Patterns

  /** The capture class `[^\/\?]+` shared by the four patterns. */
  predicate ChannelRefChar(c: char) {
    c != '/' && c != '?'
  }

  /** The literal of each pattern, in the order the patterns are tried. */
  const ChannelPrefixes: seq<string> := ["youtube.com/channel/", "youtube.com/c/", "youtube.com/user/", "youtube.com/@"]

  const ChannelPage := "https://www.youtube.com/channel/"

  const HandlePage := "https://www.youtube.com/@"

  predicate IsChannelRef(ref: string) {
    |ref| > 0 && forall k :: 0 <= k < |ref| ==> ChannelRefChar(ref[k])
  }

  /** What pattern `k` alone captures from `url` (`url.match(patterns[k])?.[1]`). */
  function PatternCapture(url: string, k: nat): (r: Option<string>)
    requires k < |ChannelPrefixes|
    ensures r.Some? ==> IsChannelRef(r.value)
  {
    var r := Search(url, [ChannelPrefixes[k]], ChannelRefChar);
    if r.Some? then
      SearchFindsCapture(url, [ChannelPrefixes[k]], ChannelRefChar);
      r
    else r
  }

  /** What each pattern, in order, captures from `url`. */
  function PatternCaptures(url: string): (rs: seq<Option<string>>)
    ensures |rs| == |ChannelPrefixes|
    ensures forall k :: 0 <= k < |rs| ==> rs[k] == PatternCapture(url, k)
  {
    seq(|ChannelPrefixes|, k requires 0 <= k < |ChannelPrefixes| => PatternCapture(url, k))
  }

  /** The channel reference of `url`, or `None` (`null`): the capture of the first
      pattern, in order, that matches. */
  function ExtractChannelId(url: string): (ref: Option<string>)
    ensures ref.Some? ==> IsChannelRef(ref.value)
    ensures ref.Some? ==> exists k :: 0 <= k < |ChannelPrefixes| && PatternCapture(url, k) == ref
                                      && forall j :: 0 <= j < k ==> PatternCapture(url, j).None?
    ensures ref.None? <==> forall k :: 0 <= k < |ChannelPrefixes| ==> PatternCapture(url, k).None?
  {
    FirstSome(PatternCaptures(url))
  }

  /** The first pattern that matches anywhere decides the result. */
  lemma FirstMatchingPatternDecides(url: string, k: nat)
    requires k < |ChannelPrefixes| && PatternCapture(url, k).Some?
    requires forall j :: 0 <= j < k ==> PatternCapture(url, j).None?
    ensures ExtractChannelId(url) == PatternCapture(url, k)
  {
    var rs := PatternCaptures(url);
    var r := FirstSome(rs);
    assert rs[k].Some?;
    var m :| 0 <= m < |rs| && rs[m] == r && forall j :: 0 <= j < m ==> rs[j].None?;
    assert m == k;
  }

  /** The reference is the text right after one pattern's literal, at the leftmost
      place where that literal is followed by a reference character. */
  lemma ExtractedRefFollowsPrefix(url: string)
    requires ExtractChannelId(url).Some?
    ensures exists k, i :: 0 <= k < |ChannelPrefixes| && 0 <= i <= |url|
                           && CaptureAt(url, i, ChannelPrefixes[k], ChannelRefChar) == ExtractChannelId(url)
                           && (forall i' :: 0 <= i' < i ==> CaptureAt(url, i', ChannelPrefixes[k], ChannelRefChar).None?)
  {
    var rs := PatternCaptures(url);
    var k :| 0 <= k < |rs| && rs[k] == ExtractChannelId(url) && forall j :: 0 <= j < k ==> rs[j].None?;
    var i := LiteralSearchLeftmost(url, ChannelPrefixes[k], ChannelRefChar);
  }

  /** `null` means that no literal is followed by a reference character anywhere. */
  lemma NoRefMeansNoPrefix(url: string)
    requires ExtractChannelId(url).None?
    ensures forall k, i :: 0 <= k < |ChannelPrefixes| && 0 <= i <= |url|
                           ==> CaptureAt(url, i, ChannelPrefixes[k], ChannelRefChar).None?
  {
    forall k, i | 0 <= k < |ChannelPrefixes| && 0 <= i <= |url|
      ensures CaptureAt(url, i, ChannelPrefixes[k], ChannelRefChar).None?
    {
      assert PatternCaptures(url)[k].None?;
      SearchMissesEverywhere(url, [ChannelPrefixes[k]], ChannelRefChar);
      assert [ChannelPrefixes[k]][0] == ChannelPrefixes[k];
    }
  }

  /** A `/channel/` URL wins over every other form, wherever the others occur. */
  lemma ChannelPatternFirst(url: string)
    requires PatternCapture(url, 0).Some?
    ensures ExtractChannelId(url) == PatternCapture(url, 0)
  {
    FirstMatchingPatternDecides(url, 0);
  }

  /** Round trip through the canonical channel page. */
  lemma ChannelPageRoundTrip(id: string)
    requires IsChannelRef(id)
    ensures ExtractChannelId(ChannelPage + id) == Some(id)
  {
    assert ChannelPage + id == "https://www." + ChannelPrefixes[0] + id;
    SecurePageCapture(ChannelPrefixes[0], id);
    FirstMatchingPatternDecides(ChannelPage + id, 0);
  }

  /** Round trip through a handle page `https://www.youtube.com/@handle`: the three
      path forms find nothing, the handle form finds the handle. */
  lemma HandlePageRoundTrip(handle: string)
    requires IsChannelRef(handle)
    ensures ExtractChannelId(HandlePage + handle) == Some(handle)
  {
    forall j | 0 <= j < 3
      ensures PatternCapture(HandlePage + handle, j).None?
    {
      HandlePageMisses(handle, j);
    }
    HandlePageHit(handle);
    FirstMatchingPatternDecides(HandlePage + handle, 3);
  }

  /** The handle form captures the handle of a handle page. */
  lemma HandlePageHit(handle: string)
    requires IsChannelRef(handle)
    ensures PatternCapture(HandlePage + handle, 3) == Some(handle)
  {
    assert HandlePage + handle == "https://www." + ChannelPrefixes[3] + handle;
    SecurePageCapture(ChannelPrefixes[3], handle);
  }

  /** On `https://www.<p><ref>`, with `p` starting at the `y` of `youtube`, the pattern
      of literal `p` captures `ref`: no `y` comes earlier. */
  lemma SecurePageCapture(p: string, ref: string)
    requires |p| > 0 && p[0] == 'y' && IsChannelRef(ref)
    ensures Search("https://www." + p + ref, [p], ChannelRefChar) == Some(ref)
  {
    var host := "https://www.";
    var url := host + p + ref;
    assert url == url[..12] + [p][0] + ref;
    CaptureToEnd(url, 12, [p][0], ChannelRefChar, ref);
    forall j | 0 <= j < 12
      ensures MatchAt(url, j, [p], ChannelRefChar).None?
    {
      assert url[j] == host[j] != 'y';
      NoMatchAtForeignChar(url, j, [p], ChannelRefChar);
    }
    SearchFindsAt(url, [p], ChannelRefChar, 12);
  }

  /** On a handle page the `/channel/`, `/c/` and `/user/` literals occur nowhere. */
  lemma HandlePageMisses(handle: string, k: nat)
    requires k < 3 && IsChannelRef(handle)
    ensures PatternCapture(HandlePage + handle, k).None?
  {
    var url := HandlePage + handle;
    var alts := [ChannelPrefixes[k]];
    assert alts[0][12] != '@' && '/' in alts[0];
    NoMatchPastChar(url, |HandlePage|, alts, ChannelRefChar, '/');
    HandleHostMisses(url, alts);
    SearchFindsNothing(url, alts, ChannelRefChar);
  }

  /** Inside `https://www.youtube.com/@` a literal that has no `@` where the host has
      one matches nowhere: the only `y` is at 12, and the `@` sits 12 places later. */
  lemma HandleHostMisses(url: string, alts: seq<string>)
    requires |url| >= |HandlePage| && url[..|HandlePage|] == HandlePage
    requires |alts| == 1 && |alts[0]| > 12 && alts[0][0] == 'y' && alts[0][12] != '@'
    ensures forall j :: 0 <= j < |HandlePage| ==> MatchAt(url, j, alts, ChannelRefChar).None?
  {
    forall j | 0 <= j < |HandlePage|
      ensures MatchAt(url, j, alts, ChannelRefChar).None?
    {
      assert url[j] == HandlePage[j];
      if j == 12 {
        assert url[24] == HandlePage[24] == '@';
        if 12 + |alts[0]| <= |url| {
          assert url[12..12 + |alts[0]|][12] == url[24];
        }
      } else {
        NoMatchAtForeignChar(url, j, alts, ChannelRefChar);
      }
    }
  }
}
