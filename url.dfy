/**
 * The URL library the crawler and the detectors call, kept abstract: parsing a string into a URL
 * (or an error message), resolving a reference against a base (section 5 of RFC 3986), and the
 * parts of a parsed URL the scanner reads.
 */
module Url {
  import opened Wrappers

  /**
   * A parsed URL: its serialisation (`to_string`/`as_str`), its domain (`domain()`, None for an IP
   * literal or a host-less URL), its host (`host_str()`), and the decoded keys of its query
   * pairs in order (`query_pairs()`).
   */
  datatype ParsedUrl = ParsedUrl(
    serialized: string,
    domain: Option<string>,
    host: Option<string>,
    queryKeys: seq<string>)

  datatype UrlLibrary = UrlLibrary(
    parse: string -> Result<ParsedUrl, string>,
    join: (ParsedUrl, string) -> Option<ParsedUrl>)

  /** `extract_parameters`: the query keys of a parseable URL, and none otherwise. */
  function QueryKeys(lib: UrlLibrary, url: string): (keys: seq<string>)
    ensures lib.parse(url).Failure? ==> keys == []
    ensures lib.parse(url).Success? ==> keys == lib.parse(url).value.queryKeys
  {
    match lib.parse(url)
    case Success(u) => u.queryKeys
    case Failure(_) => []
  }
}
