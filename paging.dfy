/** The `isInHomePaging` helper: does a page path name one of the numbered
    pages of the home listing (`page/2/`, `page/3/`, ...)? */
module Paging {

  /** True when the route is the site root and the path is `page/` followed
      by at least one more character; `page/` on its own is not a paging path. */
  function IsInHomePaging(pagePath: string, route: string): (b: bool)
    ensures b <==> route == "/" && "page/" < pagePath
  {
    if |pagePath| > 5 && route == "/" then pagePath[..5] == "page/" else false
  }
}
