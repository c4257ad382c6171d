/**
 Resolution of a link against the page it was found on (`fixUrl` in main.go).

 URL parsing and reference resolution belong to Go's `net/url` package, which
 implements section 5.2 of RFC 3986; that package is not part of this model and
 is kept abstract here.
 */
module Urls {

  /** The behaviour of `net/url` this program relies on: which strings `url.Parse`
      accepts, and the string form of `base.ResolveReference(href)` for two parsed
      references, written `resolve(href, base)`. */
  datatype UrlLib = UrlLib(parses: string -> bool, resolve: (string, string) -> string)

  /** `fixUrl(href, base)`: the empty string when either argument fails to parse,
      otherwise `href` resolved against `base`. */
  function FixUrl(lib: UrlLib, href: string, base: string): (r: string)
    ensures lib.parses(href) && lib.parses(base) ==> r == lib.resolve(href, base)
    ensures !lib.parses(href) ==> r == ""
    ensures !lib.parses(base) ==> r == ""
  {
    if !lib.parses(href) then ""
    else if !lib.parses(base) then ""
    else lib.resolve(href, base)
  }
}
