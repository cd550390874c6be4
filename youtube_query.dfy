/**
 * The pure part of `query_youtube` and `is_video` (src/helper/music.rs):
 * deciding between a search and a direct video link, taking the video id
 * out of a link, and keeping the videos of a search response. The calls to
 * the Invidious service are parameters of `QueryYoutube`.
 */
module YoutubeQuery {
  import opened Base
  import opened Invidious
  import opened Tracks

  /** A query that starts with this is a link, not a search (music.rs:92). */
  const LinkPrefix: string := "http"
  /** The separator before a video id in a watch link (music.rs:106). */
  const VideoParam: string := "?v="
  /** The parameter string of a search request (music.rs:100). */
  const SearchParam: string := "q="

  /** `str::starts_with`: `prefix` is an initial segment of `s`. */
  predicate StartsWith(s: string, prefix: string) {
    |prefix| <= |s| && s[..|prefix|] == prefix
  }

  /** `do_search`: a query is searched for unless it starts with `http` (music.rs:92). */
  function DoSearch(query: string): (b: bool)
    ensures !b <==> exists rest: string :: query == LinkPrefix + rest
  {
    var b := !StartsWith(query, LinkPrefix);
    assert !b ==> query == LinkPrefix + query[|LinkPrefix|..];
    b
  }

  // ---------------------------------------------------------------------
  // `query.split("?v=").last()`

  /** `?v=` occurs in `s` starting at index `i`. */
  predicate ParamAt(s: string, i: nat) {
    i + 3 <= |s| && s[i] == '?' && s[i + 1] == 'v' && s[i + 2] == '='
  }

  /** `ParamAt` is an occurrence of the literal `VideoParam`. */
  lemma ParamAtIsOccurrence(s: string, i: nat)
    ensures ParamAt(s, i) <==> i + |VideoParam| <= |s| && s[i..i + |VideoParam|] == VideoParam
  {
    if i + |VideoParam| <= |s| && s[i..i + |VideoParam|] == VideoParam {
      assert s[i + 1] == s[i..i + 3][1] && s[i + 2] == s[i..i + 3][2];
    }
  }

  ghost predicate ContainsParam(s: string) {
    exists i: nat :: ParamAt(s, i)
  }

  /** An occurrence in a slice of `s` is one in `s`. */
  lemma ParamInSlice(s: string, from: nat, to: nat, j: nat)
    requires from <= to <= |s| && ParamAt(s[from..to], j)
    ensures ParamAt(s, from + j) && from + j + 3 <= to
  {
  }

  /** The first `?v=` in `s` at or after `from`. */
  function FindParam(s: string, from: nat): (r: Option<nat>)
    requires from <= |s|
    ensures r.Some? ==> from <= r.value && ParamAt(s, r.value)
    decreases |s| - from
  {
    if from + 3 > |s| then Option.None
    else if ParamAt(s, from) then Some(from)
    else FindParam(s, from + 1)
  }

  /** `FindParam` finds the first occurrence, and reports none only when there is none. */
  lemma {:induction false} FindParamIsFirst(s: string, from: nat)
    requires from <= |s|
    ensures var r := FindParam(s, from);
      && (r.Some? ==> forall j: nat :: from <= j < r.value ==> !ParamAt(s, j))
      && (r.None? ==> forall j: nat :: from <= j ==> !ParamAt(s, j))
    decreases |s| - from
  {
    if from + 3 <= |s| && !ParamAt(s, from) {
      FindParamIsFirst(s, from + 1);
    }
  }

  /**
   * The pieces of `s[from..]` between the occurrences of `?v=`, found left
   * to right; `SplitFrom(s, 0)` is `s.split("?v=")` collected (music.rs:106).
   */
  function SplitFrom(s: string, from: nat): (pieces: seq<string>)
    requires from <= |s|
    ensures |pieces| >= 1
    decreases |s| - from
  {
    match FindParam(s, from)
    case None => [s[from..]]
    case Some(i) => [s[from..i]] + SplitFrom(s, i + 3)
  }

  function Split(s: string): (pieces: seq<string>)
    ensures |pieces| >= 1
  {
    SplitFrom(s, 0)
  }

  /** The pieces put back together with `?v=` between them: the inverse of `Split`. */
  function Join(pieces: seq<string>): string
    requires |pieces| >= 1
    decreases |pieces|
  {
    if |pieces| == 1 then pieces[0] else pieces[0] + VideoParam + Join(pieces[1..])
  }

  lemma {:induction false} JoinSplitFrom(s: string, from: nat)
    requires from <= |s|
    ensures Join(SplitFrom(s, from)) == s[from..]
    decreases |s| - from
  {
    match FindParam(s, from)
    case None =>
    case Some(i) =>
      assert Join(SplitFrom(s, i + 3)) == s[i + 3..] by {
        JoinSplitFrom(s, i + 3);
      }
      assert SplitFrom(s, from)[0] == s[from..i] && SplitFrom(s, from)[1..] == SplitFrom(s, i + 3);
      assert s[from..i] + VideoParam + s[i + 3..] == s[from..] by {
        ParamAtIsOccurrence(s, i);
        assert s[from..] == s[from..i] + s[i..i + 3] + s[i + 3..];
      }
  }

  /** Splitting loses nothing: joining the pieces with `?v=` gives back the string. */
  lemma JoinSplit(s: string)
    ensures Join(Split(s)) == s
  {
    JoinSplitFrom(s, 0);
  }

  lemma {:induction false} SplitFromPiecesAvoidParam(s: string, from: nat)
    requires from <= |s|
    ensures forall k :: 0 <= k < |SplitFrom(s, from)| ==> !ContainsParam(SplitFrom(s, from)[k])
    decreases |s| - from
  {
    FindParamIsFirst(s, from);
    match FindParam(s, from)
    case None =>
      forall j: nat | ParamAt(s[from..], j) ensures false {
        ParamInSlice(s, from, |s|, j);
      }
    case Some(i) =>
      SplitFromPiecesAvoidParam(s, i + 3);
      forall j: nat | ParamAt(s[from..i], j) ensures false {
        ParamInSlice(s, from, i, j);
      }
      assert SplitFrom(s, from) == [s[from..i]] + SplitFrom(s, i + 3);
  }

  /** No piece of a split contains `?v=`. */
  lemma SplitPiecesAvoidParam(s: string)
    ensures forall k :: 0 <= k < |Split(s)| ==> !ContainsParam(Split(s)[k])
  {
    SplitFromPiecesAvoidParam(s, 0);
  }

  /** The last element of a non-empty sequence (`Iterator::last`). */
  function Last<T>(xs: seq<T>): T
    requires |xs| >= 1
  {
    xs[|xs| - 1]
  }

  /** `query.split("?v=").last().unwrap()`: the video id of a link (music.rs:106). */
  function VideoId(query: string): (id: string)
    ensures !ContainsParam(id)
  {
    SplitPiecesAvoidParam(query);
    Last(Split(query))
  }

  /** Without an occurrence of `?v=` from `from` on, the last piece is all of `s[from..]`. */
  lemma LastPieceWithoutParam(s: string, from: nat)
    requires from <= |s| && forall j: nat :: from <= j ==> !ParamAt(s, j)
    ensures Last(SplitFrom(s, from)) == s[from..]
  {
  }

  /** A link without `?v=` is looked up by the whole query. */
  lemma VideoIdWithoutParam(query: string)
    requires !ContainsParam(query)
    ensures VideoId(query) == query
  {
    LastPieceWithoutParam(query, 0);
  }

  /** `?v=` occurs at `k` and nowhere after it. */
  ghost predicate LastParam(s: string, k: nat) {
    ParamAt(s, k) && forall j: nat :: k < j ==> !ParamAt(s, j)
  }

  /** The last piece from `from` on is what follows the last occurrence `k` of `?v=`. */
  lemma {:induction false} LastPieceAfterLastParam(s: string, from: nat) returns (k: nat)
    requires from <= |s| && exists j: nat :: from <= j && ParamAt(s, j)
    ensures from <= k && LastParam(s, k) && Last(SplitFrom(s, from)) == s[k + 3..]
    decreases |s| - from
  {
    assert FindParam(s, from).Some? by {
      FindParamIsFirst(s, from);
    }
    var i := FindParam(s, from).value;
    assert Last(SplitFrom(s, from)) == Last(SplitFrom(s, i + 3)) by {
      assert SplitFrom(s, from) == [s[from..i]] + SplitFrom(s, i + 3);
    }
    if exists j: nat :: i + 3 <= j && ParamAt(s, j) {
      k := LastPieceAfterLastParam(s, i + 3);
    } else {
      k := i;
      assert LastParam(s, i) && Last(SplitFrom(s, i + 3)) == s[i + 3..] by {
        LastPieceWithoutParam(s, i + 3);
      }
    }
  }

  /** The id of a link is the text after its last `?v=`, found at `k`. */
  lemma VideoIdAfterLastParam(query: string) returns (k: nat)
    requires ContainsParam(query)
    ensures LastParam(query, k) && VideoId(query) == query[k + |VideoParam|..]
  {
    k := LastPieceAfterLastParam(query, 0);
  }

  // ---------------------------------------------------------------------
  // Search results

  /** `is_video`: the video of a `Video` item, nothing for any other item (music.rs:138-143). */
  function IsVideo(item: SearchItem): (r: Option<CommonVideo>)
    ensures r.Some? <==> item.Video?
    ensures r.Some? ==> item == Video(r.value)
  {
    match item
    case Video(v) => Some(v)
    case _ => Option.None
  }

  /** `items.iter().filter_map(is_video).collect()` (music.rs:104). */
  function FilterVideos(items: seq<SearchItem>): (vs: seq<CommonVideo>)
    ensures |vs| <= |items|
  {
    if items == [] then []
    else
      var rest := FilterVideos(items[1..]);
      match IsVideo(items[0])
      case Some(v) => [v] + rest
      case None => rest
  }

  /** Filtering a concatenation filters each part. */
  lemma {:induction false} FilterVideosAppend(a: seq<SearchItem>, b: seq<SearchItem>)
    ensures FilterVideos(a + b) == FilterVideos(a) + FilterVideos(b)
    decreases |a|
  {
    if a == [] {
      assert a + b == b;
    } else {
      assert (a + b)[0] == a[0] && (a + b)[1..] == a[1..] + b;
      FilterVideosAppend(a[1..], b);
    }
  }

  /** Exactly the videos of the response are kept. */
  lemma {:induction false} FilterVideosKeepsExactlyVideos(items: seq<SearchItem>, v: CommonVideo)
    ensures v in FilterVideos(items) <==> Video(v) in items
    decreases |items|
  {
    if items != [] {
      FilterVideosKeepsExactlyVideos(items[1..], v);
      assert items == [items[0]] + items[1..];
    }
  }

  /** Videos keep their order: a response that is all videos is returned as it is. */
  lemma {:induction false} FilterVideosOfVideos(vs: seq<CommonVideo>)
    ensures FilterVideos(seq(|vs|, i requires 0 <= i < |vs| => Video(vs[i]))) == vs
    decreases |vs|
  {
    if vs != [] {
      var items := seq(|vs|, i requires 0 <= i < |vs| => Video(vs[i]));
      assert items[1..] == seq(|vs[1..]|, i requires 0 <= i < |vs[1..]| => Video(vs[1..][i]));
      FilterVideosOfVideos(vs[1..]);
      assert vs == [vs[0]] + vs[1..];
    }
  }

  /**
   * `query_youtube` (music.rs:88-116) with the two service calls as
   * parameters: `search` answers a search request, `video` looks up one id.
   */
  function QueryYoutube(query: string, search: string -> seq<SearchItem>, video: string -> CommonVideo)
    : (r: seq<CommonVideo>)
    ensures DoSearch(query) ==> r == FilterVideos(search(SearchParam + query))
    ensures DoSearch(query) ==> forall v :: v in r <==> Video(v) in search(SearchParam + query)
    ensures !DoSearch(query) ==> r == [video(VideoId(query))] && !ContainsParam(VideoId(query))
  {
    if DoSearch(query) then
      var found := search(SearchParam + query);
      forall v ensures v in FilterVideos(found) <==> Video(v) in found {
        FilterVideosKeepsExactlyVideos(found, v);
      }
      FilterVideos(found)
    else
      [video(VideoId(query))]
  }

  /** A track's own watch link is taken as a link, and looked up by the track's video id. */
  lemma WatchUrlRoundTrip(s: Source)
    requires !ContainsParam(s.video.id)
    ensures !DoSearch(GetUrl(s))
    ensures VideoId(GetUrl(s)) == s.video.id
  {
    var url := GetUrl(s);
    var n := |WatchUrlPrefix|;
    assert url == WatchUrlPrefix + s.video.id;
    assert url == LinkPrefix + url[|LinkPrefix|..] by {
      assert url[..|LinkPrefix|] == WatchUrlPrefix[..|LinkPrefix|];
    }
    assert ParamAt(url, n - 3) by {
      assert url[n - 3] == WatchUrlPrefix[n - 3];
      assert url[n - 2] == WatchUrlPrefix[n - 2];
      assert url[n - 1] == WatchUrlPrefix[n - 1];
    }
    assert url[n..] == s.video.id;
    var k := VideoIdAfterLastParam(url);
    if k > n - 3 {
      assert k >= n by {
        assert url[k] == '?';
      }
      assert ParamAt(s.video.id, k - n) by {
        assert s.video.id[k - n..] == url[k..];
      }
    }
    assert k == n - 3;
  }
}
