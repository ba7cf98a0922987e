/** A parsed URL, reduced to the two views of it the bot uses: its serialization
    (`Url::as_str`, also its `Display`) and its path (`Url::path`). Parsing a URL
    is left to an oracle of type `UrlParser`. */
module Urls {
  import opened Wrappers
  import opened Text

  datatype Url = Url(href: string, path: string)

  /** `Url::parse`: `Some` for a string that is a valid URL, with its parts. */
  type UrlParser = string -> Option<Url>

  /** `Url::path_segments`: the pieces of the path after its leading '/', split on '/';
      `None` when the path does not start with '/' (an opaque path such as that of
      `mailto:x`, or the empty path of `git://host`). */
  function PathSegments(u: Url): (r: Option<seq<string>>)
    ensures r.Some? <==> |u.path| > 0 && u.path[0] == '/'
  {
    if |u.path| > 0 && u.path[0] == '/' then Some(Split(u.path[1..], '/'))
    else None
  }

  /** Whenever the path has segments, it has at least one: `path_segments` never yields
      an empty iterator. */
  lemma SegmentsNeverEmpty(u: Url)
    requires PathSegments(u).Some?
    ensures |PathSegments(u).value| >= 1
  {
  }
}
