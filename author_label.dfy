/** The `getAuthorLabel` helper: an author's level, derived from the number
    of posts, shown either as `Lv<level>` or as an entry of a label list the
    site configures. */
module AuthorLabel {
  import opened Wrappers
  import opened Strings

  function Pow2(n: nat): (r: nat)
    ensures r >= 1
  {
    if n == 0 then 1 else 2 * Pow2(n - 1)
  }

  lemma {:induction false} Pow2Monotone(a: nat, b: nat)
    requires a <= b
    ensures Pow2(a) <= Pow2(b)
  {
    if a < b {
      Pow2Monotone(a, b - 1);
    }
  }

  lemma Pow2Reaches8(e: nat)
    ensures e >= 3 ==> Pow2(e) >= 8
  {
    if e >= 3 {
      Pow2Monotone(3, e);
    }
  }

  /** `Math.floor(Math.log2(n))` for a positive whole number `n`: the largest
      `e` with `2^e <= n`. */
  function FloorLog2(n: nat): (e: nat)
    requires n >= 1
    ensures Pow2(e) <= n < Pow2(e + 1)
  {
    if n == 1 then 0 else 1 + FloorLog2(n / 2)
  }

  /** The bracket `2^e <= n < 2^(e+1)` determines the floor logarithm. */
  lemma FloorLog2Unique(n: nat, e: nat)
    requires n >= 1 && Pow2(e) <= n < Pow2(e + 1)
    ensures FloorLog2(n) == e
  {
    var f := FloorLog2(n);
    if f < e {
      Pow2Monotone(f + 1, e);
    } else if f > e {
      Pow2Monotone(e + 1, f);
    }
  }

  /** The author's level: `floor(log2(postCount))`, lowered by one, and never
      below 1; no posts at all (a logarithm of minus infinity) also give 1.
      From four posts on, level `l` means between `2^(l+1)` and `2^(l+2) - 1`
      posts. */
  function Level(postCount: nat): (level: nat)
    ensures level >= 1
    ensures postCount < 8 ==> level == 1
    ensures postCount >= 4 ==> Pow2(level + 1) <= postCount < Pow2(level + 2)
  {
    if postCount == 0 then 1
    else
      var l := FloorLog2(postCount);
      Pow2Reaches8(l);
      if l < 2 then 1 else l - 1
  }

  /** `2^(j+2)` posts give level `j + 1`. */
  lemma LevelOfPowerOfTwo(j: nat)
    ensures Level(Pow2(j + 2)) == j + 1
  {
    var n := Pow2(j + 2);
    FloorLog2Unique(n, j + 2);
  }

  /** The label list is used only when automatic labels are switched off with
      a literal `false` and an array with at least one label is given. */
  predicate UsesLabelList(isAuto: Option<bool>, labelList: Option<seq<string>>)
  {
    isAuto == Some(false) && labelList.Some? && |labelList.value| > 0
  }

  function Min(a: int, b: int): int
  {
    if a <= b then a else b
  }

  /** `getAuthorLabel(postCount, isAuto, labelList)`. `isAuto` is `None` for
      any value other than a boolean; `labelList` is `None` for any value that
      is not an array. From the label list, the label of the level is taken,
      and every level past the end of the list gets the last label; otherwise
      the label is `Lv` followed by the level in decimal. */
  function GetAuthorLabel(postCount: nat, isAuto: Option<bool>, labelList: Option<seq<string>>): (tag: string)
    ensures UsesLabelList(isAuto, labelList) ==>
              tag in labelList.value
              && tag == labelList.value[Min(Level(postCount), |labelList.value|) - 1]
    ensures !UsesLabelList(isAuto, labelList) ==>
              |tag| > 2 && tag[..2] == "Lv" && tag[2] != '0'
              && (forall k :: 2 <= k < |tag| ==> IsDigit(tag[k]))
              && DecimalValue(tag[2..]) == Level(postCount)
  {
    var level := Level(postCount);
    if isAuto == Some(false) && labelList.Some? && |labelList.value| > 0 then
      var list := labelList.value;
      if level > |list| then list[|list| - 1] else list[level - 1]
    else
      var digits := DecimalString(level);
      DecimalRoundTrip(level);
      assert ("Lv" + digits)[2..] == digits;
      "Lv" + digits
  }

  /** No label of the list is skipped: the `j`-th label (counting from 0) is
      the one shown for `2^(j+2)` posts. */
  lemma EveryLabelIsReached(labels: seq<string>, j: nat)
    requires j < |labels|
    ensures GetAuthorLabel(Pow2(j + 2), Some(false), Some(labels)) == labels[j]
  {
    LevelOfPowerOfTwo(j);
  }

  /** Worked examples: 0, 1 and 4 posts give `Lv1`, 16 posts give `Lv3`. */
  lemma AutoLabelExamples()
    ensures GetAuthorLabel(0, Some(true), None) == "Lv1"
    ensures GetAuthorLabel(1, Some(true), None) == "Lv1"
    ensures GetAuthorLabel(4, Some(true), None) == "Lv1"
    ensures GetAuthorLabel(16, Some(true), None) == "Lv3"
  {
    assert Pow2(4) == 16 && Pow2(5) == 32;
    FloorLog2Unique(16, 4);
  }
}
