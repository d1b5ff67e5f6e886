# Theme helpers of hexo-theme-redefine, modelled in Dafny

This project models `scripts/helpers/themeHelpers.js`, the helper file of the
Redefine theme for the Hexo static-site generator. It covers every helper and
filter the file registers:

- `isInHomePaging`: is a page one of the numbered pages of the home listing?
- the `after_post_render` filter: wraps each highlighted code block in a
  container labelled with its language.
- `createNewArchivePosts`: groups the posts into one bucket per year, newest
  year first, each bucket newest post first.
- `getAuthorLabel`: an author's level from the post count, shown as `Lv<n>`
  or taken from a configured label list.
- `getPostUrl`: a post's absolute address.
- the four asset resolvers `renderJS`, `renderJSModule`, `renderJSPath` and
  `renderCSS`, with their shared per-path step `cdnPathHandle`.
- `getThemeVersion`.

Modules, one per file:

| module | file | contents |
|---|---|---|
| `Wrappers` | `wrappers.dfy` | `Option` |
| `Strings` | `strings.dfy` | JavaScript's `String.prototype.replace` with a string pattern (first occurrence only), `charAt(0).toUpperCase() + slice(1)`, decimal rendering |
| `Paging` | `paging.dfy` | `isInHomePaging` |
| `CodeBlock` | `code_block.dfy` | the per-match callback of `after_post_render` and the filter over a whole post, with the render data as a class whose `content` is rewritten in place |
| `Sorting` | `sorting.dfy` | `Array.prototype.sort` with a descending numeric comparator, as an insertion sort on sequences |
| `Archive` | `archive.dfy` | `createNewArchivePosts` as an imperative method, one step method per step of the helper (the statement at :45-50 is split into deduplication and bucket creation) |
| `ArchiveProperties` | `archive.dfy` | what the archive result guarantees: a partition of the posts by year |
| `AuthorLabel` | `author_label.dfy` | `getAuthorLabel`, with `Math.floor(Math.log2(n))` as an exact integer logarithm |
| `PostUrl` | `post_url.dfy` | `getPostUrl` |
| `Cdn` | `cdn.dfy` | the provider table, `cdnPathHandle`, the four resolvers and `getThemeVersion` |

Points where a quick reading of the code misleads:

- `isInHomePaging` demands a path longer than five characters. So the path
  `page/` on its own is not a paging path, although it starts with `page/`.
- `getAuthorLabel` does not skip a label and does not read past the list. A
  level above the list length gets the last label, and a level equal to the
  length also gets the last label, through the ordinary index. So the clamp has
  no off-by-one error. `AuthorLabel.EveryLabelIsReached` proves that every
  label is shown for some post count.
- In the code-block callback, the `p1 || "code"` fallback never applies,
  because the pattern's capture group matches one or more characters.
- In three of the four resolvers (all but `renderCSS`), the `custom` branch
  of `cdnPathHandle` checks `enable` a second time. It is
  always true there, so custom and built-in providers produce the same markup.
  The only difference is the URL template.

Inputs from the host are parameters of the model:

- the local helpers `js`, `url_for` and `css`
- the `href` of Node's `URL` parser
- the theme configuration
- the theme version read from the package descriptor

## Model

| member | source | states |
|---|---|---|
| `Paging.IsInHomePaging` | scripts/helpers/themeHelpers.js:9-15 | true exactly when the route is `/` and `page/` is a proper prefix of the path |
| `Strings.IndexOfFromFindsFirst` | scripts/helpers/themeHelpers.js:25-28 | the search behind `replace` finds an occurrence exactly when there is one, and then the first one |
| `Strings.ReplaceFirstAt` | scripts/helpers/themeHelpers.js:121-123 | `replace` with a string pattern replaces the first occurrence and keeps everything before and after it |
| `Strings.ReplaceFirstAbsent` | scripts/helpers/themeHelpers.js:121-123 | without an occurrence, `replace` returns the string unchanged |
| `Strings.ReplaceAtStart` | scripts/helpers/themeHelpers.js:25-28 | a string that starts with the pattern has exactly that prefix replaced |
| `Strings.Capitalize` | scripts/helpers/themeHelpers.js:31-32 | same length; the first character is upper-cased and the rest is kept |
| `Strings.DecimalRoundTrip` | scripts/helpers/themeHelpers.js:74 | reading back the rendered digits of the level gives the level, with no leading zero |
| `CodeBlock.DisplayLanguage` | scripts/helpers/themeHelpers.js:21-24 | `plain` and an empty capture are shown as `code`; any other capture is shown as it is |
| `CodeBlock.MarkFigure` | scripts/helpers/themeHelpers.js:25-28 | the marker class goes into the opening tag the match starts with, and the rest of the match is unchanged |
| `CodeBlock.WrapMatchExact` | scripts/helpers/themeHelpers.js:20-37 | for every match the pattern can produce, the output is the container labelled with the capitalised language (`code` for `plain`), then the marked match, then `</div>` |
| `CodeBlock.PlainIsLabelledCode` | scripts/helpers/themeHelpers.js:22-24 | a `plain` block is labelled `Code` |
| `CodeBlock.RewriteWithoutBlocks` | scripts/helpers/themeHelpers.js:18-20 | content without highlighted blocks is left unchanged |
| `CodeBlock.RewriteAppend` | scripts/helpers/themeHelpers.js:19-20 | the global replace works piece by piece: rewriting a concatenation is the concatenation of the rewrites |
| `CodeBlock.AfterPostRender` | scripts/helpers/themeHelpers.js:18-39 | the render data's content becomes the content with every block replaced by its wrapper |
| `Sorting.InsertDesc` | scripts/helpers/themeHelpers.js:51 | inserting into a descending sequence keeps it descending, adds exactly one element and keeps the rest |
| `Sorting.SortDesc` | scripts/helpers/themeHelpers.js:57-59 | the sort's result is in non-increasing key order and is a permutation of its input |
| `Sorting.DistinctPermutation` | scripts/helpers/themeHelpers.js:51 | sorting a sequence without repetitions gives a sequence without repetitions |
| `Archive.PostsOfYear` | scripts/helpers/themeHelpers.js:53-55 | the posts of a year: all have that year, and every post of that year is among them |
| `Archive.CreateNewArchivePosts` | scripts/helpers/themeHelpers.js:41-61 | the result has strictly decreasing years, exactly the posts' years, and each bucket is a newest-first permutation of its year's posts |
| `Archive.CollectYears` | scripts/helpers/themeHelpers.js:44 | the year list holds each post's year, position by position |
| `Archive.UniqueYears` | scripts/helpers/themeHelpers.js:45 | the deduplicated years contain no repetitions and hold exactly the values of the year list |
| `Archive.YearListCoversYears` | scripts/helpers/themeHelpers.js:44-45 | the deduplicated years are exactly the years the posts were written in |
| `Archive.PushEmptyBuckets` | scripts/helpers/themeHelpers.js:45-50 | one empty bucket per year, in the order of the years |
| `Archive.EmptyBucketsCoverYears` | scripts/helpers/themeHelpers.js:45-50 | the created buckets are pairwise distinct and stand for exactly the posts' years |
| `Archive.SortBucketsByYear` | scripts/helpers/themeHelpers.js:51 | sorting the empty buckets by year makes the years strictly decreasing and keeps the set of years |
| `Archive.SortedBucketsDescend` | scripts/helpers/themeHelpers.js:51 | a descending sort of distinct empty buckets is strictly descending by year, same length, still empty |
| `Archive.FillBuckets` | scripts/helpers/themeHelpers.js:52-56 | every bucket keeps its year and receives exactly the posts of its year, in input order |
| `Archive.SortEachBucket` | scripts/helpers/themeHelpers.js:57-59 | every bucket keeps its year and becomes a newest-first permutation of its year's posts |
| `Archive.SameYears` | scripts/helpers/themeHelpers.js:52-59 | filling and sorting the buckets keeps their order by year and their set of years |
| `ArchiveProperties.AllPostsByYear` | scripts/helpers/themeHelpers.js:52-59 | the buckets together hold, as a multiset, the posts whose year has a bucket |
| `ArchiveProperties.ArchivePartition` | scripts/helpers/themeHelpers.js:41-61 | the buckets together hold every post exactly once: the same multiset as the input, and the sizes sum to the number of posts |
| `ArchiveProperties.PostInItsYearOnly` | scripts/helpers/themeHelpers.js:52-56 | a post is in the bucket of its year and in no other bucket |
| `ArchiveProperties.DescendingYearsCount` | scripts/helpers/themeHelpers.js:51 | strictly descending buckets have as many distinct years as buckets |
| `ArchiveProperties.OneBucketPerYear` | scripts/helpers/themeHelpers.js:45-51 | there are as many buckets as distinct years among the posts |
| `ArchiveProperties.BucketsNonEmpty` | scripts/helpers/themeHelpers.js:45-56 | no bucket is empty |
| `AuthorLabel.FloorLog2` | scripts/helpers/themeHelpers.js:66 | the result `e` is the unique exponent with `2^e <= n < 2^(e+1)` |
| `AuthorLabel.FloorLog2Unique` | scripts/helpers/themeHelpers.js:66 | the bracket `2^e <= n < 2^(e+1)` determines the floor logarithm |
| `AuthorLabel.Level` | scripts/helpers/themeHelpers.js:66-67 | the level is at least 1, is 1 below eight posts, and from four posts on brackets the post count between `2^(level+1)` and `2^(level+2)` |
| `AuthorLabel.LevelOfPowerOfTwo` | scripts/helpers/themeHelpers.js:66-67 | `2^(j+2)` posts give level `j + 1` |
| `AuthorLabel.GetAuthorLabel` | scripts/helpers/themeHelpers.js:63-77 | with automatic labels off and a nonempty list, the label is the list entry of the level, clamped to the last entry; otherwise it is `Lv` followed by the level's decimal digits |
| `AuthorLabel.EveryLabelIsReached` | scripts/helpers/themeHelpers.js:69-72 | every entry of the label list is shown for some post count (the `j`-th for `2^(j+2)` posts) |
| `AuthorLabel.AutoLabelExamples` | scripts/helpers/themeHelpers.js:66-74 | 0, 1 and 4 posts give `Lv1`; 16 posts give `Lv3` |
| `PostUrl.WithTrailingSlash` | scripts/helpers/themeHelpers.js:82-84 | an `href` ending in `/` is kept as it is; any other `href` gets exactly one `/` appended |
| `PostUrl.GetPostUrl` | scripts/helpers/themeHelpers.js:79-89 | an empty root URL gives the path; otherwise the result is exactly the root's `href`, then one `/` only if `href` does not already end in one, then the path |
| `Cdn.CdnBase` | scripts/helpers/themeHelpers.js:94-116 | a built-in provider gets its template, `custom` gets a nonempty custom URL, and everything else falls back to the staticfile template |
| `Cdn.PathHandle` | scripts/helpers/themeHelpers.js:114-137 | with the CDN off, the local helper's output; with it on, the resolver's markup around the provider URL, for custom and built-in providers alike |
| `Cdn.JoinedAppend` | scripts/helpers/themeHelpers.js:141-142 | `map(...).join("")` over two concatenated arrays is the concatenation of the two results |
| `Cdn.ManyIsConcatenation` | scripts/helpers/themeHelpers.js:139-147 | an array of paths is resolved element by element in order, and a one-element array gives the same output as the path alone |
| `Cdn.DisabledIsLocal` | scripts/helpers/themeHelpers.js:132-142 | with the CDN off, an array of paths gives the local helper's outputs, concatenated |
| `Cdn.RenderJS` | scripts/helpers/themeHelpers.js:91-148 | one path gives `js(path)` with the CDN off, and a `<script src>` tag around the CDN URL with it on |
| `Cdn.RenderJSModule` | scripts/helpers/themeHelpers.js:150-207 | one path gives the local module script with the CDN off, and a `<script type="module">` tag around the CDN URL with it on |
| `Cdn.RenderJSPath` | scripts/helpers/themeHelpers.js:209-264 | one path gives `url_for(path)` with the CDN off, and the bare CDN URL with it on |
| `Cdn.RenderCSS` | scripts/helpers/themeHelpers.js:266-317 | one path gives `css(path)` with the CDN off, and a stylesheet `<link>` around the CDN URL with it on |
| `Cdn.ReplaceFirstAfterScheme` | scripts/helpers/themeHelpers.js:121-123 | in an `https://` URL without other colons before it, a `:placeholder` occurrence is the first one and is the one replaced |
| `Cdn.FillOne` | scripts/helpers/themeHelpers.js:128-130 | one placeholder of a colon-free URL template is filled in place |
| `Cdn.FillTemplate` | scripts/helpers/themeHelpers.js:128-130 | filling a template gives its site, the version, its middle part and the path, in this order |
| `Cdn.BuiltInProviderUrl` | scripts/helpers/themeHelpers.js:94-130 | a built-in provider's URL is its template with the theme version (`getThemeVersion`, :319-321) and the path in place of the placeholders |

## Left out

- The regular-expression scan of `after_post_render` is not modelled. The
  content is given already split into plain text and matched blocks
  (`CodeBlock.Segment`). How the lazy `.*?` chooses where a match ends is
  therefore not modelled.
- `$` replacement patterns in `String.prototype.replace` are not modelled: the
  replacement text is inserted literally. The theme's versions and paths are
  not expected to contain `$`.
- `toUpperCase` is modelled for the ASCII letters only, which is all the
  language capture can contain.
- `Math.log2` is floating point. The model uses the exact integer logarithm,
  which is what `Math.floor(Math.log2(n))` gives for the post counts of a site.
  A negative post count is out of scope, since a count cannot be negative.
  (In JavaScript the level would be `NaN`: the label is `LvNaN`, or
  `undefined` when the label list is used.)
- `getAuthorLabel`'s loosely typed arguments are modelled as options.
  `isAuto` is `Some(b)` only for a real boolean, and `labelList` is `Some`
  only for an array. Array entries are strings.
- `new URL(rootUrl)` is not modelled: its parsing, its normalisation and the
  exception it throws on a malformed URL. Its `href` is a parameter of
  `PostUrl.GetPostUrl`.
- Post dates (`moment` objects) are modelled by the two numbers the helper
  reads: the year and the Unix time.
- `Sorting.SortDesc`: stability is not stated. The host's sort is stable, so
  posts with the same time keep their input order, and buckets never tie on
  the year. The model's insertion sort places an element after those with an
  equal key, which keeps input order too. Its contract promises only
  descending order and a permutation, and nothing about the order among
  equal keys.
- Archive buckets are values in a sequence, not shared mutable objects. The
  helper creates them fresh and never aliases them.
- The local helpers `js`, `url_for` and `css` are functions in `Cdn.Host`;
  how they work is not part of this model. The same goes for Hexo's helper
  registration, the binding of `this`, and reading the version from
  `package.json`.
- The provider lookup reads an ordinary JavaScript object, so a provider name
  such as `toString` would find an inherited member. The model uses a finite
  map and falls back to the staticfile template for every name outside it.
- `Cdn.BuiltInProviderUrl` states the URL for any built-in provider whose
  template has the form `https://<site>:version<mid>:path`, with no colon in
  the site, the middle part or the version. It is not instantiated for each
  of the nine providers one by one.
- `Cdn.RenderJS`, `Cdn.RenderJSModule`, `Cdn.RenderJSPath`, `Cdn.RenderCSS`:
  their own contracts describe a single path. Arrays are described by
  `Cdn.ManyIsConcatenation`, `Cdn.JoinedAppend` and `Cdn.DisabledIsLocal`.
