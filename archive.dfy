/** The `createNewArchivePosts` helper: the posts of the archive page grouped
    into one bucket per year, newest year first, each bucket newest post first. */
module Archive {
  import opened Sorting

  /** A post as the grouper sees it: the year and the Unix time of its date. */
  datatype Post = Post(year: int, unix: int)

  /** One archive entry: `{ year, postList }`. */
  datatype YearBucket = YearBucket(year: int, posts: seq<Post>)

  function YearOf(b: YearBucket): int { b.year }

  function UnixOf(p: Post): int { p.unix }

  /** The years the posts were written in. */
  function Years(posts: seq<Post>): (ys: set<int>)
    ensures forall y :: y in ys <==> exists k :: 0 <= k < |posts| && posts[k].year == y
  {
    if posts == [] then {}
    else Years(posts[..|posts| - 1]) + {posts[|posts| - 1].year}
  }

  /** The years the buckets stand for. */
  function BucketYears(buckets: seq<YearBucket>): (ys: set<int>)
    ensures forall y :: y in ys <==> exists k :: 0 <= k < |buckets| && buckets[k].year == y
  {
    if buckets == [] then {}
    else {buckets[0].year} + BucketYears(buckets[1..])
  }

  /** The posts of year `y`, in input order. */
  function PostsOfYear(posts: seq<Post>, y: int): (r: seq<Post>)
    ensures forall k :: 0 <= k < |r| ==> r[k].year == y
    ensures forall p :: p in posts && p.year == y ==> p in r
    ensures forall p :: p in r ==> p in posts
  {
    if posts == [] then []
    else
      var last := posts[|posts| - 1];
      assert posts == posts[..|posts| - 1] + [last];
      PostsOfYear(posts[..|posts| - 1], y) + (if last.year == y then [last] else [])
  }

  /** Bucket years strictly decrease: one bucket per year, newest first. */
  predicate YearsDescending(buckets: seq<YearBucket>)
  {
    forall i, j :: 0 <= i < j < |buckets| ==> buckets[i].year > buckets[j].year
  }

  /** Every bucket holds a permutation of the posts of its year, newest first. */
  predicate BucketsFilled(buckets: seq<YearBucket>, posts: seq<Post>)
  {
    forall i :: 0 <= i < |buckets| ==>
      multiset(buckets[i].posts) == multiset(PostsOfYear(posts, buckets[i].year))
      && SortedDesc(buckets[i].posts, UnixOf)
  }

  /** What the archive page expects of the grouper's result. */
  predicate IsArchiveOf(buckets: seq<YearBucket>, posts: seq<Post>)
  {
    YearsDescending(buckets)
    && BucketYears(buckets) == Years(posts)
    && BucketsFilled(buckets, posts)
  }

  /** The grouper, step by step as the helper does it: collect the years,
      keep each year once, push an empty bucket per year, sort the buckets by
      year, push every post into the bucket of its year, sort every bucket by
      time. */
  method CreateNewArchivePosts(posts: seq<Post>) returns (buckets: seq<YearBucket>)
    ensures IsArchiveOf(buckets, posts)
  {
    var yearList := CollectYears(posts);
    var seen := UniqueYears(yearList);
    YearListCoversYears(posts, yearList, seen);
    var created := PushEmptyBuckets(seen);
    EmptyBucketsCoverYears(seen, created, posts);
    var ordered := SortBucketsByYear(created);
    var filled := FillBuckets(ordered, posts);
    buckets := SortEachBucket(filled, posts);
    SameYears(ordered, buckets);
  }

  /** The distinct values of the year list are the years of the posts. */
  lemma YearListCoversYears(posts: seq<Post>, yearList: seq<int>, seen: seq<int>)
    requires |yearList| == |posts| && forall k :: 0 <= k < |posts| ==> yearList[k] == posts[k].year
    requires forall y :: y in seen <==> y in yearList
    ensures forall y :: y in seen <==> y in Years(posts)
  {
    forall y ensures y in yearList <==> y in Years(posts) {
      if y in yearList {
        var k :| 0 <= k < |yearList| && yearList[k] == y;
        assert posts[k].year == y;
      }
    }
  }

  /** `postList.sort((a, b) => b.year - a.year)` on the freshly created,
      still empty buckets. */
  method SortBucketsByYear(created: seq<YearBucket>) returns (sorted: seq<YearBucket>)
    requires Distinct(created)
    requires forall k :: 0 <= k < |created| ==> created[k].posts == []
    ensures YearsDescending(sorted)
    ensures |sorted| == |created|
    ensures forall k :: 0 <= k < |sorted| ==> sorted[k].posts == []
    ensures BucketYears(sorted) == BucketYears(created)
  {
    sorted := SortDesc(created, YearOf);
    SortedBucketsDescend(created, sorted);
  }

  /** `posts.forEach((post) => postYearList.push(post.date.year()))` */
  method CollectYears(posts: seq<Post>) returns (yearList: seq<int>)
    ensures |yearList| == |posts|
    ensures forall k :: 0 <= k < |posts| ==> yearList[k] == posts[k].year
  {
    yearList := [];
    var i := 0;
    while i < |posts|
      invariant 0 <= i <= |posts|
      invariant |yearList| == i
      invariant forall k :: 0 <= k < i ==> yearList[k] == posts[k].year
    {
      yearList := yearList + [posts[i].year];
      i := i + 1;
    }
  }

  /** `Array.from(new Set(values))`: every value of the list, each once.
      The order the set keeps is not stated, as the buckets made from these
      values are sorted by year right after. */
  method UniqueYears(values: seq<int>) returns (seen: seq<int>)
    ensures Distinct(seen)
    ensures forall y :: y in seen <==> y in values
  {
    seen := [];
    var i := 0;
    while i < |values|
      invariant 0 <= i <= |values|
      invariant Distinct(seen)
      invariant forall y :: y in seen <==> y in values[..i]
    {
      assert values[..i + 1] == values[..i] + [values[i]];
      if values[i] !in seen {
        seen := seen + [values[i]];
      }
      i := i + 1;
    }
    assert values[..|values|] == values;
  }

  /** `postList.push({ year, postList: [] })` for every year, in order. */
  method PushEmptyBuckets(years: seq<int>) returns (buckets: seq<YearBucket>)
    ensures |buckets| == |years|
    ensures forall k :: 0 <= k < |years| ==> buckets[k] == YearBucket(years[k], [])
  {
    buckets := [];
    var i := 0;
    while i < |years|
      invariant 0 <= i <= |years|
      invariant |buckets| == i
      invariant forall k :: 0 <= k < i ==> buckets[k] == YearBucket(years[k], [])
    {
      buckets := buckets + [YearBucket(years[i], [])];
      i := i + 1;
    }
  }

  /** Empty buckets made from the distinct years of the posts are distinct
      and stand for exactly the posts' years. */
  lemma EmptyBucketsCoverYears(seen: seq<int>, buckets: seq<YearBucket>, posts: seq<Post>)
    requires Distinct(seen) && forall y :: y in seen <==> y in Years(posts)
    requires |buckets| == |seen|
    requires forall k :: 0 <= k < |seen| ==> buckets[k] == YearBucket(seen[k], [])
    ensures Distinct(buckets)
    ensures BucketYears(buckets) == Years(posts)
  {
    forall a, b | 0 <= a < b < |buckets| ensures buckets[a] != buckets[b] {
      assert seen[a] != seen[b];
    }
    forall y ensures y in BucketYears(buckets) <==> y in seen {
      if y in seen {
        var k :| 0 <= k < |seen| && seen[k] == y;
        assert buckets[k].year == y;
      }
    }
  }

  /** Buckets with the same years position by position keep the order and
      the set of years. */
  lemma SameYears(a: seq<YearBucket>, b: seq<YearBucket>)
    requires |a| == |b| && forall k :: 0 <= k < |a| ==> a[k].year == b[k].year
    ensures YearsDescending(a) ==> YearsDescending(b)
    ensures BucketYears(a) == BucketYears(b)
  {
    forall y ensures y in BucketYears(a) ==> y in BucketYears(b) {
      if y in BucketYears(a) {
        var k :| 0 <= k < |a| && a[k].year == y;
        assert b[k].year == y;
      }
    }
  }

  /** The nested `forEach`: for each bucket, push every post of the bucket's
      year, in input order. */
  method FillBuckets(empty: seq<YearBucket>, posts: seq<Post>) returns (buckets: seq<YearBucket>)
    requires forall k :: 0 <= k < |empty| ==> empty[k].posts == []
    ensures |buckets| == |empty|
    ensures forall k :: 0 <= k < |buckets| ==> buckets[k].year == empty[k].year
    ensures forall k :: 0 <= k < |buckets| ==> buckets[k].posts == PostsOfYear(posts, buckets[k].year)
  {
    buckets := empty;
    var bi := 0;
    while bi < |buckets|
      invariant 0 <= bi <= |buckets| == |empty|
      invariant forall k :: 0 <= k < |buckets| ==> buckets[k].year == empty[k].year
      invariant forall k :: 0 <= k < bi ==> buckets[k].posts == PostsOfYear(posts, buckets[k].year)
      invariant forall k :: bi <= k < |buckets| ==> buckets[k].posts == []
    {
      var pj := 0;
      while pj < |posts|
        invariant 0 <= pj <= |posts|
        invariant |buckets| == |empty|
        invariant forall k :: 0 <= k < |buckets| ==> buckets[k].year == empty[k].year
        invariant forall k :: 0 <= k < bi ==> buckets[k].posts == PostsOfYear(posts, buckets[k].year)
        invariant buckets[bi].posts == PostsOfYear(posts[..pj], buckets[bi].year)
        invariant forall k :: bi < k < |buckets| ==> buckets[k].posts == []
      {
        assert posts[..pj + 1][..pj] == posts[..pj];
        assert PostsOfYear(posts[..pj + 1], buckets[bi].year)
               == PostsOfYear(posts[..pj], buckets[bi].year)
                  + (if posts[pj].year == buckets[bi].year then [posts[pj]] else []);
        if buckets[bi].year == posts[pj].year {
          buckets := buckets[bi := buckets[bi].(posts := buckets[bi].posts + [posts[pj]])];
        }
        pj := pj + 1;
      }
      assert posts[..|posts|] == posts;
      bi := bi + 1;
    }
  }

  /** `postList.forEach((item) => item.postList.sort(...))`: every bucket
      sorted newest first, each keeping its year and its posts. */
  method SortEachBucket(filled: seq<YearBucket>, posts: seq<Post>) returns (buckets: seq<YearBucket>)
    requires forall k :: 0 <= k < |filled| ==> filled[k].posts == PostsOfYear(posts, filled[k].year)
    ensures |buckets| == |filled|
    ensures forall k :: 0 <= k < |buckets| ==> buckets[k].year == filled[k].year
    ensures BucketsFilled(buckets, posts)
  {
    buckets := filled;
    var bi := 0;
    while bi < |buckets|
      invariant 0 <= bi <= |buckets| == |filled|
      invariant forall k :: 0 <= k < |buckets| ==> buckets[k].year == filled[k].year
      invariant forall k :: 0 <= k < bi ==>
                  multiset(buckets[k].posts) == multiset(PostsOfYear(posts, buckets[k].year))
                  && SortedDesc(buckets[k].posts, UnixOf)
      invariant forall k :: bi <= k < |buckets| ==> buckets[k].posts == PostsOfYear(posts, buckets[k].year)
    {
      var sorted := SortDesc(buckets[bi].posts, UnixOf);
      buckets := buckets[bi := buckets[bi].(posts := sorted)];
      bi := bi + 1;
    }
  }

  /** Sorting freshly created buckets (distinct years, no posts yet) by year
      gives strictly decreasing years and keeps the set of years. */
  lemma SortedBucketsDescend(created: seq<YearBucket>, sorted: seq<YearBucket>)
    requires Distinct(created)
    requires forall k :: 0 <= k < |created| ==> created[k].posts == []
    requires SortedDesc(sorted, YearOf) && multiset(sorted) == multiset(created)
    ensures YearsDescending(sorted)
    ensures |sorted| == |created|
    ensures forall k :: 0 <= k < |sorted| ==> sorted[k].posts == []
    ensures BucketYears(sorted) == BucketYears(created)
  {
    assert |sorted| == |multiset(sorted)| == |multiset(created)| == |created|;
    DistinctPermutation(created, sorted);
    forall k | 0 <= k < |sorted| ensures sorted[k].posts == [] && sorted[k] in created {
      assert sorted[k] in multiset(created);
    }
    forall y ensures y in BucketYears(sorted) ==> y in BucketYears(created) {
      if y in BucketYears(sorted) {
        var k :| 0 <= k < |sorted| && sorted[k].year == y;
        var m :| 0 <= m < |created| && created[m] == sorted[k];
      }
    }
    forall y ensures y in BucketYears(created) ==> y in BucketYears(sorted) {
      if y in BucketYears(created) {
        var k :| 0 <= k < |created| && created[k].year == y;
        assert created[k] in multiset(sorted);
        var m :| 0 <= m < |sorted| && sorted[m] == created[k];
      }
    }
  }
}

/** What the grouper's result guarantees the archive page. */
module ArchiveProperties {
  import opened Sorting
  import opened Archive

  /** All posts of all buckets, bucket after bucket. */
  function AllPosts(buckets: seq<YearBucket>): seq<Post>
  {
    if buckets == [] then [] else buckets[0].posts + AllPosts(buckets[1..])
  }

  /** The sum of the bucket sizes. */
  function SizeSum(buckets: seq<YearBucket>): nat
  {
    if buckets == [] then 0 else |buckets[0].posts| + SizeSum(buckets[1..])
  }

  /** The posts whose year is one of `ys`, in input order. */
  function PostsInYears(posts: seq<Post>, ys: set<int>): seq<Post>
  {
    if posts == [] then []
    else
      var last := posts[|posts| - 1];
      PostsInYears(posts[..|posts| - 1], ys) + (if last.year in ys then [last] else [])
  }

  lemma {:induction false} PostsInNoYear(posts: seq<Post>)
    ensures PostsInYears(posts, {}) == []
  {
    if posts != [] {
      PostsInNoYear(posts[..|posts| - 1]);
    }
  }

  lemma {:induction false} PostsInAllYears(posts: seq<Post>, ys: set<int>)
    requires forall k :: 0 <= k < |posts| ==> posts[k].year in ys
    ensures PostsInYears(posts, ys) == posts
  {
    if posts != [] {
      PostsInAllYears(posts[..|posts| - 1], ys);
      assert posts == posts[..|posts| - 1] + [posts[|posts| - 1]];
    }
  }

  /** Selecting one more year adds exactly the posts of that year. */
  lemma {:induction false} PostsInOneMoreYear(posts: seq<Post>, y: int, ys: set<int>)
    requires y !in ys
    ensures multiset(PostsInYears(posts, {y} + ys))
            == multiset(PostsOfYear(posts, y)) + multiset(PostsInYears(posts, ys))
  {
    if posts != [] {
      PostsInOneMoreYear(posts[..|posts| - 1], y, ys);
    }
  }

  lemma {:induction false} SizeSumIsLength(buckets: seq<YearBucket>)
    ensures SizeSum(buckets) == |AllPosts(buckets)|
  {
    if buckets != [] {
      SizeSumIsLength(buckets[1..]);
    }
  }

  lemma {:induction false} AllPostsByYear(buckets: seq<YearBucket>, posts: seq<Post>)
    requires YearsDescending(buckets) && BucketsFilled(buckets, posts)
    ensures multiset(AllPosts(buckets)) == multiset(PostsInYears(posts, BucketYears(buckets)))
  {
    if buckets == [] {
      PostsInNoYear(posts);
    } else {
      var rest := buckets[1..];
      assert YearsDescending(rest) && BucketsFilled(rest, posts) by {
        assert forall k :: 0 <= k < |rest| ==> rest[k] == buckets[k + 1];
      }
      AllPostsByYear(rest, posts);
      assert buckets[0].year !in BucketYears(rest) by {
        forall k | 0 <= k < |rest| ensures rest[k].year != buckets[0].year {
          assert rest[k] == buckets[k + 1];
        }
      }
      PostsInOneMoreYear(posts, buckets[0].year, BucketYears(rest));
    }
  }

  /** Partition: the buckets hold every post exactly as often as the input
      does, and the bucket sizes add up to the number of posts. */
  lemma ArchivePartition(buckets: seq<YearBucket>, posts: seq<Post>)
    requires IsArchiveOf(buckets, posts)
    ensures multiset(AllPosts(buckets)) == multiset(posts)
    ensures SizeSum(buckets) == |posts|
  {
    AllPostsByYear(buckets, posts);
    assert forall k :: 0 <= k < |posts| ==> posts[k].year in Years(posts);
    PostsInAllYears(posts, BucketYears(buckets));
    SizeSumIsLength(buckets);
    assert |AllPosts(buckets)| == |multiset(AllPosts(buckets))| == |multiset(posts)| == |posts|;
  }

  /** Every post lies in the bucket of its year and in no other. */
  lemma PostInItsYearOnly(buckets: seq<YearBucket>, posts: seq<Post>, p: Post)
    requires IsArchiveOf(buckets, posts) && p in posts
    ensures exists i :: 0 <= i < |buckets| && buckets[i].year == p.year && p in buckets[i].posts
    ensures forall i :: 0 <= i < |buckets| ==> (p in buckets[i].posts <==> buckets[i].year == p.year)
  {
    var k :| 0 <= k < |posts| && posts[k] == p;
    assert p.year in BucketYears(buckets);
    forall i | 0 <= i < |buckets|
      ensures p in buckets[i].posts <==> buckets[i].year == p.year
    {
      var ofYear := PostsOfYear(posts, buckets[i].year);
      if p in buckets[i].posts {
        assert p in multiset(ofYear);
      }
      if buckets[i].year == p.year {
        assert p in multiset(buckets[i].posts);
      }
    }
  }

  /** There are as many buckets as distinct years. */
  lemma {:induction false} DescendingYearsCount(buckets: seq<YearBucket>)
    requires YearsDescending(buckets)
    ensures |BucketYears(buckets)| == |buckets|
  {
    if buckets != [] {
      var rest := buckets[1..];
      assert YearsDescending(rest) by {
        assert forall k :: 0 <= k < |rest| ==> rest[k] == buckets[k + 1];
      }
      DescendingYearsCount(rest);
      assert buckets[0].year !in BucketYears(rest) by {
        forall k | 0 <= k < |rest| ensures rest[k].year != buckets[0].year {
          assert rest[k] == buckets[k + 1];
        }
      }
    }
  }

  /** One bucket per distinct year of the input. */
  lemma OneBucketPerYear(buckets: seq<YearBucket>, posts: seq<Post>)
    requires IsArchiveOf(buckets, posts)
    ensures |buckets| == |Years(posts)|
  {
    DescendingYearsCount(buckets);
  }

  /** No bucket is empty: its year is the year of some post. */
  lemma BucketsNonEmpty(buckets: seq<YearBucket>, posts: seq<Post>)
    requires IsArchiveOf(buckets, posts)
    ensures forall i :: 0 <= i < |buckets| ==> |buckets[i].posts| > 0
  {
    forall i | 0 <= i < |buckets| ensures |buckets[i].posts| > 0 {
      var y := buckets[i].year;
      assert y in BucketYears(buckets);
      assert y in Years(posts);
      var k :| 0 <= k < |posts| && posts[k].year == y;
      var ofYear := PostsOfYear(posts, y);
      assert posts[k] in ofYear;
      assert multiset(buckets[i].posts) == multiset(ofYear);
      assert posts[k] in multiset(buckets[i].posts);
    }
  }
}
