/**
 * `generate_list`: the list 10, 20, 30, ... that the global-fit script builds
 * from the `--size` value.
 */
module SizeList {

  /**
   * What `generate_list(target)` returns: a non-empty list whose i-th entry
   * is 10 * (i + 1), whose last entry has reached the target and whose
   * earlier entries are all below it.
   */
  ghost predicate IsSizeList(target: int, list: seq<int>) {
    && |list| >= 1
    && (forall i :: 0 <= i < |list| ==> list[i] == 10 * (i + 1))
    && list[|list| - 1] >= target
    && (forall i :: 0 <= i < |list| - 1 ==> list[i] < target)
  }

  /** The number of entries: one for a target of at most 10, else the target divided by 10, rounded up. */
  function StepCount(target: int): (n: nat)
    ensures n >= 1
  {
    if target <= 10 then 1 else (target + 9) / 10
  }

  method GenerateList(target: int) returns (list: seq<int>)
    ensures IsSizeList(target, list)
    ensures |list| == StepCount(target)
    ensures target > 0 && target % 10 == 0 ==> |list| == target / 10 && list[|list| - 1] == target
  {
    list := [];
    var current := 10;
    while list == [] || list[|list| - 1] < target
      invariant current == 10 * (|list| + 1)
      invariant forall i :: 0 <= i < |list| ==> list[i] == 10 * (i + 1)
      invariant forall i :: 0 <= i < |list| - 1 ==> list[i] < target
      decreases (if target > 0 then target else 0) + 10 - 10 * |list|
    {
      list := list + [current];
      current := current + 10;
    }
    SizeListLength(target, list);
  }

  /** Any list meeting the description has `StepCount(target)` entries. */
  lemma SizeListLength(target: int, list: seq<int>)
    requires IsSizeList(target, list)
    ensures |list| == StepCount(target)
    ensures target > 0 && target % 10 == 0 ==> |list| == target / 10 && list[|list| - 1] == target
  {
    var k := |list|;
    assert list[k - 1] == 10 * k;
    if k > 1 {
      assert list[k - 2] == 10 * (k - 1) < target;
    }
  }

  /** The description determines the list: `generate_list` has one possible result per target. */
  lemma SizeListUnique(target: int, a: seq<int>, b: seq<int>)
    requires IsSizeList(target, a) && IsSizeList(target, b)
    ensures a == b
  {
    SizeListLength(target, a);
    SizeListLength(target, b);
  }

  /** A size of 10 or less still yields the one-entry list [10]. */
  lemma SmallTarget(target: int, list: seq<int>)
    requires target <= 10 && IsSizeList(target, list)
    ensures list == [10]
  {
    SizeListLength(target, list);
  }
}
