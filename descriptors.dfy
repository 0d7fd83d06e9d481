/** Values shared by the display core: an optional value, and the media
    descriptor the rotator hands to the grid (one element of `images`). */
module Descriptors {

  /** A value that may be absent (`null` / `undefined` in the source). */
  datatype Option<T> = None | Some(value: T)

  /** A media descriptor as the display receives it. Remote items carry
      `subreddit` and `score`; local items carry `source == "local"` and
      `path`. A string field the descriptor does not have is "". */
  datatype Media = Media(
    url: string,
    title: string,
    subreddit: string,
    score: int,
    nsfw: bool,
    source: string,
    path: string)
}
