/**
 * The fragment of JavaScript regular expressions used by the URL extractors and the
 * duration parser: a set of literal alternatives followed by a capture group that is a
 * greedy, non-empty run of characters of one class (`/(?:a|b)([^/?]+)/`), searched for
 * without anchors.  `String.prototype.match` reports the match that starts at the
 * leftmost position; at one position the alternatives are tried in the order written.
 */
module Patterns {
  import opened Wrappers

  /** `p` occurs in `s` starting at position `i`. */
  predicate OccursAt(s: string, i: nat, p: string) {
    i + |p| <= |s| && s[i..i + |p|] == p
  }

  /** Length of the longest run of characters satisfying `allowed` that starts at `i`. */
  function RunLength(s: string, i: nat, allowed: char -> bool): (n: nat)
    requires i <= |s|
    ensures i + n <= |s|
    ensures forall k :: i <= k < i + n ==> allowed(s[k])
    ensures i + n == |s| || !allowed(s[i + n])
    decreases |s| - i
  {
    if i == |s| || !allowed(s[i]) then 0 else 1 + RunLength(s, i + 1, allowed)
  }

  /** A run that is all allowed and ends at the end of `s` or at a character outside
      the class is the run `RunLength` measures. */
  lemma RunLengthUnique(s: string, i: nat, allowed: char -> bool, n: nat)
    requires i + n <= |s|
    requires forall k :: i <= k < i + n ==> allowed(s[k])
    requires i + n == |s| || !allowed(s[i + n])
    ensures RunLength(s, i, allowed) == n
  {
  }

  /** The capture of the pattern `p([allowed]+)` when its match starts at `i`. */
  function CaptureAt(s: string, i: nat, p: string, allowed: char -> bool): (r: Option<string>)
    ensures r.Some? ==> OccursAt(s, i, p)
    ensures r.Some? ==> |r.value| > 0 && i + |p| + |r.value| <= |s|
    ensures r.Some? ==> r.value == s[i + |p|..i + |p| + |r.value|]
    ensures r.Some? ==> forall k :: 0 <= k < |r.value| ==> allowed(r.value[k])
    ensures r.Some? ==> i + |p| + |r.value| == |s| || !allowed(s[i + |p| + |r.value|])
    ensures r.None? <==> !(OccursAt(s, i, p) && i + |p| < |s| && allowed(s[i + |p|]))
  {
    if OccursAt(s, i, p) then
      var n := RunLength(s, i + |p|, allowed);
      if n > 0 then Some(s[i + |p|..i + |p| + n]) else None
    else None
  }

  /** The capture of `(?:alts[0]|alts[1]|...)([allowed]+)` at position `i`: the first
      alternative, in the order written, whose capture succeeds. */
  function MatchAt(s: string, i: nat, alts: seq<string>, allowed: char -> bool): (r: Option<string>)
    ensures r.None? <==> forall k :: 0 <= k < |alts| ==> CaptureAt(s, i, alts[k], allowed).None?
    decreases |alts|
  {
    if |alts| == 0 then None
    else
      match CaptureAt(s, i, alts[0], allowed)
      case Some(c) => Some(c)
      case None =>
        var r := MatchAt(s, i, alts[1..], allowed);
        assert forall k :: 1 <= k < |alts| ==> alts[k] == alts[1..][k - 1];
        r
  }

  /** The alternative a match at `i` comes from: the first one, in the order written,
      whose capture succeeds. */
  lemma {:induction false} MatchedAlternative(s: string, i: nat, alts: seq<string>, allowed: char -> bool)
    returns (k: nat)
    requires MatchAt(s, i, alts, allowed).Some?
    ensures k < |alts| && CaptureAt(s, i, alts[k], allowed) == MatchAt(s, i, alts, allowed)
    ensures forall j :: 0 <= j < k ==> CaptureAt(s, i, alts[j], allowed).None?
    decreases |alts|
  {
    if CaptureAt(s, i, alts[0], allowed).Some? {
      k := 0;
    } else {
      var tail := alts[1..];
      var k' := MatchedAlternative(s, i, tail, allowed);
      k := k' + 1;
      assert forall j :: 1 <= j < |alts| ==> alts[j] == tail[j - 1];
    }
  }

  /** Unanchored search: the leftmost start position `>= i` where the pattern matches. */
  function LeftmostMatch(s: string, i: nat, alts: seq<string>, allowed: char -> bool): (r: Option<nat>)
    requires i <= |s| + 1
    ensures r.Some? ==> i <= r.value <= |s| && MatchAt(s, r.value, alts, allowed).Some?
                        && forall j :: i <= j < r.value ==> MatchAt(s, j, alts, allowed).None?
    ensures r.None? ==> forall j :: i <= j <= |s| ==> MatchAt(s, j, alts, allowed).None?
    decreases |s| + 1 - i
  {
    if i == |s| + 1 then None
    else if MatchAt(s, i, alts, allowed).Some? then Some(i)
    else LeftmostMatch(s, i + 1, alts, allowed)
  }

  /** `s.match(pattern)?.[1]` for an unanchored pattern: the capture of the leftmost match. */
  function Search(s: string, alts: seq<string>, allowed: char -> bool): (r: Option<string>)
    ensures r.Some? ==> exists k :: 0 <= k <= |s| && MatchAt(s, k, alts, allowed) == r
                                   && forall j :: 0 <= j < k ==> MatchAt(s, j, alts, allowed).None?
    ensures r.None? ==> forall k :: 0 <= k <= |s| ==> MatchAt(s, k, alts, allowed).None?
  {
    match LeftmostMatch(s, 0, alts, allowed)
    case None => None
    case Some(k) => MatchAt(s, k, alts, allowed)
  }

  /** A `for (const pattern of patterns)` loop with an early `return`: the first
      pattern, in list order, whose match succeeds decides; `results[k]` is what
      pattern `k` would return. */
  function FirstSome(results: seq<Option<string>>): (r: Option<string>)
    ensures r.Some? ==> exists k :: 0 <= k < |results| && results[k] == r
                                   && forall j :: 0 <= j < k ==> results[j].None?
    ensures r.None? ==> forall k :: 0 <= k < |results| ==> results[k].None?
    decreases |results|
  {
    if |results| == 0 then None
    else if results[0].Some? then results[0]
    else
      var r := FirstSome(results[1..]);
      assert forall k :: 1 <= k < |results| ==> results[k] == results[1..][k - 1];
      if r.Some? then
        var k' :| 0 <= k' < |results| - 1 && results[1..][k'] == r
                  && forall j :: 0 <= j < k' ==> results[1..][j].None?;
        assert results[k' + 1] == r;
        r
      else r
  }

  /** Leftmost occurrence of the literal `p` at or after position `i`. */
  function FindFrom(s: string, p: string, i: nat): (r: Option<nat>)
    requires i <= |s| + 1
    ensures r.Some? ==> i <= r.value && OccursAt(s, r.value, p)
                        && forall j :: i <= j < r.value ==> !OccursAt(s, j, p)
    ensures r.None? ==> forall j :: i <= j <= |s| ==> !OccursAt(s, j, p)
    decreases |s| + 1 - i
  {
    if i == |s| + 1 then None
    else if OccursAt(s, i, p) then Some(i)
    else FindFrom(s, p, i + 1)
  }

  /** A match at `i` needs its literal to start there, so a position whose character
      differs from the first character of every alternative matches nothing. */
  lemma NoMatchAtForeignChar(s: string, i: nat, alts: seq<string>, allowed: char -> bool)
    requires i < |s|
    requires forall k :: 0 <= k < |alts| ==> |alts[k]| > 0 && alts[k][0] != s[i]
    ensures MatchAt(s, i, alts, allowed).None?
  {
    forall k | 0 <= k < |alts|
      ensures CaptureAt(s, i, alts[k], allowed).None?
    {
      if i + |alts[k]| <= |s| {
        assert s[i..i + |alts[k]|][0] == s[i] != alts[k][0];
      }
    }
  }

  /** When the literal of every alternative holds `c` at some offset and `s` has no `c`
      from position `from` on, nothing matches at or after `from`. */
  lemma NoMatchPastChar(s: string, from: nat, alts: seq<string>, allowed: char -> bool, c: char)
    requires forall k :: 0 <= k < |alts| ==> c in alts[k]
    requires forall k :: from <= k < |s| ==> s[k] != c
    ensures forall i :: from <= i <= |s| ==> MatchAt(s, i, alts, allowed).None?
  {
    forall i, k | from <= i <= |s| && 0 <= k < |alts|
      ensures CaptureAt(s, i, alts[k], allowed).None?
    {
      if i + |alts[k]| <= |s| {
        var q :| 0 <= q < |alts[k]| && alts[k][q] == c;
        assert s[i..i + |alts[k]|][q] == s[i + q] != c;
      }
    }
  }

  /** A capture that runs to the end of `s`: `p` at `i`, then only allowed characters. */
  lemma CaptureToEnd(s: string, i: nat, p: string, allowed: char -> bool, id: string)
    requires i <= |s| && s == s[..i] + p + id
    requires |id| > 0 && forall k :: 0 <= k < |id| ==> allowed(id[k])
    ensures CaptureAt(s, i, p, allowed) == Some(id)
  {
    var j := i + |p|;
    assert s[i..j] == p;
    assert forall k :: j <= k < |s| ==> s[k] == id[k - j];
    RunLengthUnique(s, j, allowed, |id|);
    assert s[j..j + |id|] == id;
  }

  /** The leftmost matching position decides what `Search` returns. */
  lemma SearchFindsAt(s: string, alts: seq<string>, allowed: char -> bool, i: nat)
    requires i <= |s| && MatchAt(s, i, alts, allowed).Some?
    requires forall j :: 0 <= j < i ==> MatchAt(s, j, alts, allowed).None?
    ensures Search(s, alts, allowed) == MatchAt(s, i, alts, allowed)
  {
    var r := Search(s, alts, allowed);
    assert r.Some?;
    var k :| 0 <= k <= |s| && MatchAt(s, k, alts, allowed) == r
             && forall j :: 0 <= j < k ==> MatchAt(s, j, alts, allowed).None?;
    assert k <= i;
  }

  /** A search where no position matches finds nothing. */
  lemma SearchFindsNothing(s: string, alts: seq<string>, allowed: char -> bool)
    requires forall j :: 0 <= j <= |s| ==> MatchAt(s, j, alts, allowed).None?
    ensures Search(s, alts, allowed).None?
  {
  }

  /** What a successful search returns is the capture of one alternative at one position. */
  lemma SearchFindsCapture(s: string, alts: seq<string>, allowed: char -> bool)
    requires Search(s, alts, allowed).Some?
    ensures exists i, k :: 0 <= i <= |s| && 0 <= k < |alts|
                           && CaptureAt(s, i, alts[k], allowed) == Search(s, alts, allowed)
  {
    var i, k := SearchedAlternative(s, alts, allowed);
  }

  /** The position a successful search matched at. */
  lemma SearchedAt(s: string, alts: seq<string>, allowed: char -> bool) returns (i: nat)
    requires Search(s, alts, allowed).Some?
    ensures i <= |s| && MatchAt(s, i, alts, allowed) == Search(s, alts, allowed)
  {
    i := LeftmostMatch(s, 0, alts, allowed).value;
  }

  /** A failed search means no alternative is followed by an allowed character anywhere. */
  lemma SearchMissesEverywhere(s: string, alts: seq<string>, allowed: char -> bool)
    requires Search(s, alts, allowed).None?
    ensures forall i, k :: 0 <= i <= |s| && 0 <= k < |alts| ==> CaptureAt(s, i, alts[k], allowed).None?
  {
    forall i, k | 0 <= i <= |s| && 0 <= k < |alts|
      ensures CaptureAt(s, i, alts[k], allowed).None?
    {
      assert MatchAt(s, i, alts, allowed).None?;
    }
  }

  /** For a one-literal pattern `p([allowed]+)`, a successful search returns the capture
      at the leftmost position where `p` is followed by an allowed character. */
  lemma LiteralSearchLeftmost(s: string, p: string, allowed: char -> bool) returns (i: nat)
    requires Search(s, [p], allowed).Some?
    ensures i <= |s| && CaptureAt(s, i, p, allowed) == Search(s, [p], allowed)
    ensures forall j :: 0 <= j < i ==> CaptureAt(s, j, p, allowed).None?
  {
    i :| 0 <= i <= |s| && MatchAt(s, i, [p], allowed) == Search(s, [p], allowed)
         && forall j :: 0 <= j < i ==> MatchAt(s, j, [p], allowed).None?;
    assert [p][0] == p;
    forall j | 0 <= j < i
      ensures CaptureAt(s, j, p, allowed).None?
    {
      assert MatchAt(s, j, [p], allowed).None?;
    }
  }

  /** What a successful search returns is the capture of alternative `k` at position `i`. */
  lemma SearchedAlternative(s: string, alts: seq<string>, allowed: char -> bool) returns (i: nat, k: nat)
    requires Search(s, alts, allowed).Some?
    ensures i <= |s| && k < |alts| && CaptureAt(s, i, alts[k], allowed) == Search(s, alts, allowed)
  {
    i := SearchedAt(s, alts, allowed);
    k := MatchedAlternative(s, i, alts, allowed);
  }
}
