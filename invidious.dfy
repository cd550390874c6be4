/**
 * The values the code receives from the `invidious` client crate. Only the
 * fields that the modelled code reads are kept, plus `author`, which stands
 * for the video metadata that source identity ignores.
 */
module Invidious {

  /** One thumbnail of a video; the code only reads its url. */
  datatype VideoThumbnail = VideoThumbnail(quality: string, url: string)

  /** `CommonVideo`: a catalogue video, identified by its id. */
  datatype CommonVideo = CommonVideo(
    id: string,
    title: string,
    author: string,
    thumbnails: seq<VideoThumbnail>)

  /** `hidden::SearchItem`: one item of a search response. */
  datatype SearchItem =
    | Video(video: CommonVideo)
    | Playlist(playlistId: string)
    | Channel(channelId: string)
}
