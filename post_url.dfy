/** The `getPostUrl` helper: the absolute address of a post, from the site's
    root URL and the post's relative path. */
module PostUrl {

  /** `href` with one `/` appended unless it already ends in `/`. */
  function WithTrailingSlash(href: string): (r: string)
    ensures |r| > 0 && r[|r| - 1] == '/'
    ensures href <= r && |r| <= |href| + 1
    ensures |href| > 0 && href[|href| - 1] == '/' ==> r == href
    ensures !(|href| > 0 && href[|href| - 1] == '/') ==> r == href + "/"
  {
    if |href| > 0 && href[|href| - 1] == '/' then href else href + "/"
  }

  /** An empty (falsy) root URL leaves the path as it is; otherwise the path
      is appended to the root URL's normalised form (`href`, computed by the
      host's URL parser) after making sure that form ends in `/`. */
  function GetPostUrl(rootUrl: string, path: string, href: string -> string): (r: string)
    ensures rootUrl == "" ==> r == path
    ensures rootUrl != "" ==>
              |r| > |path| && r[|r| - |path|..] == path
              && r[|r| - |path| - 1] == '/'
              && href(rootUrl) <= r[..|r| - |path|]
              && r == WithTrailingSlash(href(rootUrl)) + path
  {
    if rootUrl != "" then WithTrailingSlash(href(rootUrl)) + path else path
  }
}
