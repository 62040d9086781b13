/**
 * Nesting by indentation level, shared by the two Excel readers: items are
 * given by their levels, and an item's parent is the nearest earlier item of
 * a smaller level. A stack of open items holds the chain of ancestors of the
 * last item.
 */
module Nesting {
  import opened Wrappers

  /** The last item before `j` whose level is below `v`. */
  function NearestBelow(levels: seq<nat>, v: nat, j: nat): (p: Option<nat>)
    requires j <= |levels|
    ensures p.Some? ==> p.value < j
    decreases j
  {
    if j == 0 then None
    else if levels[j - 1] < v then Some(j - 1)
    else NearestBelow(levels, v, j - 1)
  }

  /** The parent of item `i` in an indentation hierarchy: the nearest earlier item of a smaller level. */
  function ParentOf(levels: seq<nat>, i: nat): (p: Option<nat>)
    requires i < |levels|
    ensures p.Some? ==> p.value < i
  {
    NearestBelow(levels, levels[i], i)
  }

  lemma {:induction false} NearestBelowSpec(levels: seq<nat>, v: nat, j: nat)
    requires j <= |levels|
    ensures NearestBelow(levels, v, j).Some? ==>
              levels[NearestBelow(levels, v, j).value] < v &&
              forall k :: NearestBelow(levels, v, j).value < k < j ==> levels[k] >= v
    ensures NearestBelow(levels, v, j).None? ==> forall k :: 0 <= k < j ==> levels[k] >= v
    decreases j
  {
    if j > 0 && levels[j - 1] >= v {
      NearestBelowSpec(levels, v, j - 1);
    }
  }

  /**
   * An item's parent is an earlier item of a smaller level with no item of a
   * level at most its own in between; an item without parent has no earlier
   * item of a smaller level.
   */
  lemma {:induction false} ParentOfSpec(levels: seq<nat>, i: nat)
    requires i < |levels|
    ensures ParentOf(levels, i).Some? ==>
              levels[ParentOf(levels, i).value] < levels[i] &&
              forall k :: ParentOf(levels, i).value < k < i ==> levels[k] >= levels[i]
    ensures ParentOf(levels, i).None? ==> forall k :: 0 <= k < i ==> levels[k] >= levels[i]
  {
    NearestBelowSpec(levels, levels[i], i);
  }

  /** Items whose levels are all at least `v` do not change where the search for a smaller level ends. */
  lemma {:induction false} SkipHigher(levels: seq<nat>, v: nat, lo: nat, hi: nat)
    requires lo <= hi <= |levels|
    requires forall k :: lo <= k < hi ==> levels[k] >= v
    ensures NearestBelow(levels, v, hi) == NearestBelow(levels, v, lo)
    decreases hi
  {
    if lo < hi {
      SkipHigher(levels, v, lo, hi - 1);
    }
  }

  /**
   * Popping a stack entry `t` whose level is not below `v` moves the search
   * to `t`'s own parent: nothing between the two has a level below `t`'s.
   */
  lemma {:induction false} PopJump(levels: seq<nat>, v: nat, t: nat)
    requires t < |levels| && v <= levels[t]
    ensures NearestBelow(levels, v, t + 1) ==
              match ParentOf(levels, t)
              case None => None
              case Some(p) => NearestBelow(levels, v, p + 1)
  {
    assert NearestBelow(levels, v, t + 1) == NearestBelow(levels, v, t);
    ParentOfSpec(levels, t);
    match ParentOf(levels, t)
    case None => SkipHigher(levels, v, 0, t);
    case Some(p) => SkipHigher(levels, v, p + 1, t);
  }

  /** The stack after item `k` is pushed: `k` on top of its ancestors. */
  function Chain(levels: seq<nat>, k: nat): (c: seq<nat>)
    requires k < |levels|
    ensures c != [] && c[|c| - 1] == k
    decreases k
  {
    match ParentOf(levels, k)
    case None => [k]
    case Some(p) => Chain(levels, p) + [k]
  }

}
