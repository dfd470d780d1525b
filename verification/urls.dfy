/**
 The parts of a `net/url` URL that the target generator reads and writes, and
 the way `URL.String` lays them out. Percent-escaping is not modelled: the
 path is one text that is both split into segments and written, so it stands
 for a path whose decoded and written forms agree.
 */
module Urls {

  /** A parsed URL: scheme, host (authority), path, and everything written
      after the path (the query with its '?' and the fragment with its '#'). */
  datatype Url = Url(scheme: string, host: string, path: string, suffix: string)

  /** What the command line accepts as a base URL: scheme and host present. */
  predicate Valid(u: Url) {
    u.scheme != "" && u.host != ""
  }

  /** `URL.String` inserts a '/' between host and path when the path is
      relative, so that the host does not run into the path. */
  predicate NeedsRootSlash(u: Url) {
    u.host != "" && u.path != "" && u.path[0] != '/'
  }

  /** Everything `URL.String` writes before the path. */
  function Lead(u: Url): string {
    (if u.scheme != "" then u.scheme + ":" else "")
    + (if u.scheme != "" || u.host != "" then
         (if u.host != "" || u.path != "" then "//" else "") + u.host
       else "")
    + (if NeedsRootSlash(u) then "/" else "")
  }

  /** `URL.String`: lead, path, then query and fragment. For a URL with
      scheme and host the text is `scheme://host`, a '/' when the path is
      relative, the path and the suffix; it is never empty. */
  function Serialize(u: Url): (r: string)
    ensures Valid(u) ==> r == u.scheme + "://" + u.host
                              + (if NeedsRootSlash(u) then "/" else "") + u.path + u.suffix
    ensures Valid(u) ==> |r| >= |u.scheme| + 3 + |u.host|
  {
    Lead(u) + u.path + u.suffix
  }

  /** The URL with its path replaced; scheme, host and suffix are kept. */
  function WithPath(u: Url, path: string): (v: Url)
    ensures v.scheme == u.scheme && v.host == u.host && v.suffix == u.suffix
    ensures v.path == path
    ensures Valid(u) ==> Valid(v)
  {
    u.(path := path)
  }
}
