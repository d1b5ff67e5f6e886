/** `Array.prototype.sort` with a comparator of the shape
    `(a, b) => key(b) - key(a)`: the elements end up in non-increasing order of
    their key and form a permutation of the input. The host's sort is stable
    (elements with equal keys keep their input order); the insertion below
    places a new element after those with an equal key, so it is stable too,
    but the contracts do not state stability. */
module Sorting {

  /** Keys never increase from left to right. */
  predicate SortedDesc<T>(s: seq<T>, key: T -> int)
  {
    forall i, j :: 0 <= i < j < |s| ==> key(s[i]) >= key(s[j])
  }

  /** No element occurs twice. */
  predicate Distinct<T(==)>(s: seq<T>)
  {
    forall i, j :: 0 <= i < j < |s| ==> s[i] != s[j]
  }

  /** `x` inserted into the sorted `s` in front of the first element whose key
      is smaller than `x`'s, that is, after every element with an equal key. */
  function InsertDesc<T>(s: seq<T>, x: T, key: T -> int): (r: seq<T>)
    requires SortedDesc(s, key)
    ensures |r| == |s| + 1
    ensures key(r[0]) == if s == [] || key(x) > key(s[0]) then key(x) else key(s[0])
    ensures SortedDesc(r, key)
    ensures multiset(r) == multiset(s) + multiset{x}
  {
    if s == [] then [x]
    else if key(x) > key(s[0]) then [x] + s
    else
      var rest := InsertDesc(s[1..], x, key);
      assert s == [s[0]] + s[1..];
      assert key(s[0]) >= key(rest[0]);
      [s[0]] + rest
  }

  /** The sort, one insertion per element of the input. */
  method SortDesc<T>(s: seq<T>, key: T -> int) returns (r: seq<T>)
    ensures SortedDesc(r, key)
    ensures multiset(r) == multiset(s)
  {
    r := [];
    var i := 0;
    while i < |s|
      invariant 0 <= i <= |s|
      invariant SortedDesc(r, key)
      invariant multiset(r) == multiset(s[..i])
    {
      r := InsertDesc(r, s[i], key);
      assert s[..i + 1] == s[..i] + [s[i]];
      i := i + 1;
    }
    assert s[..|s|] == s;
  }

  /** A sequence without repetitions holds every value at most once. */
  lemma {:induction false} DistinctMultiplicity<T>(s: seq<T>, x: T)
    requires Distinct(s)
    ensures multiset(s)[x] <= 1
  {
    if s != [] {
      assert s == [s[0]] + s[1..];
      assert Distinct(s[1..]);
      DistinctMultiplicity(s[1..], x);
      if s[0] == x {
        assert x !in s[1..];
      }
    }
  }

  /** Two positions holding the same value make that value occur twice. */
  lemma RepeatMultiplicity<T>(s: seq<T>, i: nat, j: nat)
    requires i < j < |s| && s[i] == s[j]
    ensures multiset(s)[s[i]] >= 2
  {
    assert s == s[..j] + [s[j]] + s[j + 1..];
    assert s[i] in s[..j];
  }

  /** Being free of repetitions survives any permutation, so a sort keeps it. */
  lemma DistinctPermutation<T>(s: seq<T>, t: seq<T>)
    requires Distinct(s) && multiset(s) == multiset(t)
    ensures Distinct(t)
  {
    forall i, j | 0 <= i < j < |t|
      ensures t[i] != t[j]
    {
      if t[i] == t[j] {
        RepeatMultiplicity(t, i, j);
        DistinctMultiplicity(s, t[i]);
      }
    }
  }
}
