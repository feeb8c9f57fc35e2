/**
 * The collaborators the core calls but does not implement: the HTTP client,
 * the XML and HTML parsers and the RFC 3339 timestamp parser. They are
 * passed in as functions, so every statement about the core holds for any
 * behaviour of theirs.
 */
module Io {
  import opened Wrappers
  import opened Xml

  /** A timestamp with a fixed UTC offset; only the parser makes one. */
  datatype DateTime = DateTime(utcSeconds: int, offsetSeconds: int)

  /**
   * `fetch(url)` is the body of an HTTP GET, or None when the request or
   * reading its body fails; `parseXml(text)` is the document tree or None
   * when the text is not well-formed; `parseHtml` never fails; and
   * `parseRfc3339(text)` is the timestamp or None when the text is not an
   * RFC 3339 section 5.6 date-time.
   */
  datatype Env = Env(
    fetch: string -> Option<string>,
    parseXml: string -> Option<Node>,
    parseHtml: string -> Node,
    parseRfc3339: string -> Option<DateTime>)

  /** The channel page of a YouTube handle. */
  const YoutubeHost: string := "https://www.youtube.com/"
}
