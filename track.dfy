/** Tracks and their sources (src/guilds/music/track.rs). */
module Tracks {
  import opened Base
  import opened Invidious

  /** The prefix that `Source::get_url` puts before a video id. */
  const WatchUrlPrefix: string := "https://www.youtube.com/watch?v="

  /** `Source`: where a track's media comes from; one provider so far. */
  datatype Source = Youtube(video: CommonVideo)

  /** `Track`: a playable item. Copied by value into queue, history and events. */
  datatype Track = Track(title: string, source: Source, thumbnail: Option<string>)

  /** `Source::get_url`: the watch URL of the source's video. */
  function GetUrl(s: Source): (url: string)
    ensures |url| == |WatchUrlPrefix| + |s.video.id|
    ensures url[..|WatchUrlPrefix|] == WatchUrlPrefix
    ensures url[|WatchUrlPrefix|..] == s.video.id
  {
    match s
    case Youtube(v) => WatchUrlPrefix + v.id
  }

  /** `impl PartialEq for Source`: two sources are equal when their video ids are. */
  predicate SourceEq(a: Source, b: Source) {
    match (a, b)
    case (Youtube(x), Youtube(y)) => x.id == y.id
  }

  /** The derived `PartialEq` of `Track`: fields pairwise, the source by `SourceEq`. */
  predicate TrackEq(a: Track, b: Track) {
    a.title == b.title && SourceEq(a.source, b.source) && a.thumbnail == b.thumbnail
  }

  /** `impl Clone for Track`: a field-by-field copy. */
  function Clone(t: Track): (r: Track)
    ensures r == t && TrackEq(r, t)
  {
    Track(t.title, t.source, t.thumbnail)
  }

  /** `Track::from_youtube`: title and first thumbnail taken from the video. */
  function FromYoutube(video: CommonVideo): (t: Track)
    ensures t.title == video.title
    ensures t.source == Youtube(video)
    ensures t.thumbnail.None? <==> |video.thumbnails| == 0
    ensures |video.thumbnails| > 0 ==> t.thumbnail == Some(video.thumbnails[0].url)
    ensures GetUrl(t.source) == WatchUrlPrefix + video.id
  {
    Track(
      title := video.title,
      source := Youtube(video),
      thumbnail := if |video.thumbnails| == 0 then None else Some(video.thumbnails[0].url))
  }

  /** Two sources have the same URL exactly when they are equal. */
  lemma GetUrlIdentifiesSource(a: Source, b: Source)
    ensures GetUrl(a) == GetUrl(b) <==> SourceEq(a, b)
  {
    if GetUrl(a) == GetUrl(b) {
      assert a.video.id == GetUrl(a)[|WatchUrlPrefix|..];
    }
  }

  /** Source equality is an equivalence relation. */
  lemma SourceEqIsEquivalence()
    ensures forall a :: SourceEq(a, a)
    ensures forall a, b :: SourceEq(a, b) ==> SourceEq(b, a)
    ensures forall a, b, c :: SourceEq(a, b) && SourceEq(b, c) ==> SourceEq(a, c)
  {
  }

  /** Source equality ignores everything about the video but its id. */
  lemma SourceEqIgnoresMetadata()
    ensures exists a, b :: SourceEq(a, b) && a != b
  {
    var a := Youtube(CommonVideo("dQw4w9WgXcQ", "first", "someone", []));
    var b := Youtube(CommonVideo("dQw4w9WgXcQ", "second", "someone else", []));
    assert SourceEq(a, b) && a.video.title != b.video.title;
  }

  /** Track equality: title, source id and thumbnail all agree. */
  lemma TrackEqMeansFieldsAgree(a: Track, b: Track)
    ensures TrackEq(a, b) <==>
      a.title == b.title && a.source.video.id == b.source.video.id && a.thumbnail == b.thumbnail
  {
  }

  /** Track equality is an equivalence relation, coarser than value identity. */
  lemma TrackEqIsEquivalence()
    ensures forall a :: TrackEq(a, a)
    ensures forall a, b :: TrackEq(a, b) ==> TrackEq(b, a)
    ensures forall a, b, c :: TrackEq(a, b) && TrackEq(b, c) ==> TrackEq(a, c)
  {
  }

  /** Unlike a source-only comparison, tracks of one source differ when their titles do. */
  lemma SameSourceDifferentTitle()
    ensures exists a: Track, b: Track :: SourceEq(a.source, b.source) && !TrackEq(a, b)
  {
    var s := Youtube(CommonVideo("dQw4w9WgXcQ", "song", "someone", []));
    var a := Track("one title", s, None);
    var b := Track("another title", s, None);
    assert SourceEq(a.source, b.source) && !TrackEq(a, b);
  }
}
