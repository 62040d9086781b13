/**
 * `excel_verification_api.py`, `HierarchicalExcelExtractor._build_hierarchy`:
 * logical rows nested by their leading ideographic spaces, with a stack of
 * open items indexed by level. Skipping a level pads the stack with `None`,
 * and a later parent search that reaches such a slot reads `.level` of
 * `None`; that `AttributeError` is the `None` outcome of `Run`.
 *
 * Items are numbered in the order they are built; the `children` lists the
 * source appends to are represented by each item's parent number (a child
 * list is the items naming that parent, in build order).
 */
module ExcelStack {
  import opened Wrappers
  import opened Text
  import Nesting
  import ExcelParser

  /** `_get_hierarchy_level`: the number of ideographic spaces the name starts with. */
  function LeadingLevel(name: string): (n: nat)
    ensures n <= |name|
    ensures forall i :: 0 <= i < n ==> name[i] == IdeographicSpace
    ensures n < |name| ==> name[n] != IdeographicSpace
    decreases |name|
  {
    if name != [] && name[0] == IdeographicSpace then 1 + LeadingLevel(name[1..]) else 0
  }

  /**
   * Unlike `excel_parser.py`, which counts every ideographic space of the
   * name, this level stops at the first other character.
   */
  lemma {:induction false} LevelsDisagree(x: char)
    requires x != IdeographicSpace
    ensures LeadingLevel([x, IdeographicSpace]) == 0
    ensures ExcelParser.HierarchyLevel([x, IdeographicSpace]) == 1
  {
    ExcelParser.LevelCountsEverySpace([x], []);
    assert [x] + [IdeographicSpace] + [] == [x, IdeographicSpace];
    assert ExcelParser.HierarchyLevel([x]) == 0 by {
      assert [x][1..] == [];
    }
  }

  // ------------------------------------------------------------------ stack

  /** The stack: slot `j` holds the number of an item, or `None` where a level was skipped. */
  type Stack = seq<Option<nat>>

  /** Every item a stack holds is one of the first `n`. */
  predicate InRange(stack: Stack, n: nat) {
    forall j :: 0 <= j < |stack| && stack[j].Some? ==> stack[j].value < n
  }

  /** The search for a parent of level `v` passes over slot `j`: it holds an item of level `v` or more. */
  predicate PassedOver(stack: Stack, levels: seq<nat>, v: nat, j: nat)
    requires InRange(stack, |levels|) && j < |stack|
  {
    stack[j].Some? && levels[stack[j].value] >= v
  }

  /** What `_find_parent_across_tables` meets: a parent in slot `slot`, no parent, or a `None` slot it cannot read. */
  datatype Lookup = Parent(slot: nat) | NoParent | NoneSlot(slot: nat)

  /**
   * `_find_parent_across_tables(stack, level)`: the stack read from the top
   * down; the first item of a smaller level is the parent. Reaching a `None`
   * slot first raises.
   */
  function FindParent(stack: Stack, levels: seq<nat>, v: nat): (r: Lookup)
    requires InRange(stack, |levels|)
    ensures r.Parent? ==> r.slot < |stack| && stack[r.slot].Some? && levels[stack[r.slot].value] < v
    ensures r.NoneSlot? ==> r.slot < |stack| && stack[r.slot].None?
    ensures !r.NoParent? ==> forall j :: r.slot < j < |stack| ==> PassedOver(stack, levels, v, j)
    ensures r.NoParent? ==> forall j :: 0 <= j < |stack| ==> PassedOver(stack, levels, v, j)
    decreases |stack|
  {
    if stack == [] then NoParent
    else
      var n := |stack| - 1;
      match stack[n]
      case None => NoneSlot(n)
      case Some(i) =>
        if levels[i] < v then Parent(n)
        else
          var below := stack[..n];
          var r := FindParent(below, levels, v);
          assert forall j :: 0 <= j < n ==>
            below[j] == stack[j] && PassedOver(below, levels, v, j) == PassedOver(stack, levels, v, j);
          assert PassedOver(stack, levels, v, n);
          r
  }

  /** `_update_stack_across_tables` as a value: slot `level` set to the item, slots above it dropped, gaps padded with `None`. */
  function Updated(stack: Stack, item: nat, level: nat): (s: Stack)
    ensures |s| == level + 1 && s[level] == Some(item)
    ensures forall j :: 0 <= j < level ==> s[j] == (if j < |stack| then stack[j] else None)
  {
    seq(level + 1, j requires 0 <= j <= level => if j == level then Some(item) else if j < |stack| then stack[j] else None)
  }

  /** `_update_stack_across_tables(stack, item, level)`, in place on the list. */
  method UpdateStack(stack0: Stack, item: nat, level: nat) returns (stack: Stack)
    ensures stack == Updated(stack0, item, level)
  {
    stack := stack0;
    while |stack| <= level
      invariant |stack| >= |stack0|
      invariant |stack| > |stack0| ==> |stack| <= level + 1
      invariant forall j :: 0 <= j < |stack| ==> stack[j] == if j < |stack0| then stack0[j] else None
      decreases level + 1 - |stack|
    {
      stack := stack + [None];
    }
    stack := stack[level := Some(item)];
    if level + 1 < |stack| {
      stack := stack[..level + 1];
    }
  }

  // -------------------------------------------------------------- building

  /** The stack and, for each item built so far, its parent's number (`None` for a root). */
  datatype State = State(stack: Stack, parents: seq<Option<nat>>)

  /**
   * One item of `_build_hierarchy`: without a parent it becomes a root and
   * the stack restarts with it; under a parent it is that parent's next child
   * and takes its level's slot.
   */
  function Step(st: State, levels: seq<nat>, k: nat): (r: Option<State>)
    requires k < |levels| && InRange(st.stack, k)
    ensures r.Some? ==> |r.value.parents| == |st.parents| + 1 && r.value.parents[..|st.parents|] == st.parents
    ensures r.Some? ==> InRange(r.value.stack, k + 1)
  {
    match FindParent(st.stack, levels, levels[k])
    case NoParent => Some(State([Some(k)], st.parents + [None]))
    case Parent(s) => Some(State(Updated(st.stack, k, levels[k]), st.parents + [st.stack[s]]))
    case NoneSlot(_) => None
  }

  /** `_build_hierarchy` over items of the given levels; `None` where it raises. */
  function Run(levels: seq<nat>): (r: Option<State>)
    ensures r.Some? ==> |r.value.parents| == |levels| && InRange(r.value.stack, |levels|)
    decreases |levels|
  {
    if levels == [] then Some(State([], []))
    else
      var k := |levels| - 1;
      match Run(levels[..k])
      case None => None
      case Some(st) => Step(st, levels, k)
  }

  /** A parent is an earlier item of a smaller level. */
  predicate ParentsEarlier(levels: seq<nat>, parents: seq<Option<nat>>)
    requires |parents| == |levels|
  {
    forall k :: 0 <= k < |parents| && parents[k].Some? ==> parents[k].value < k && levels[parents[k].value] < levels[k]
  }

  lemma {:induction false} RunParentsEarlier(levels: seq<nat>)
    requires Run(levels).Some?
    ensures ParentsEarlier(levels, Run(levels).value.parents)
    decreases |levels|
  {
    if levels != [] {
      var k := |levels| - 1;
      var st := Run(levels[..k]).value;
      RunParentsEarlier(levels[..k]);
      StepParentEarlier(st, levels, k);
      ParentsEarlierSnoc(levels, Run(levels).value.parents);
    }
  }

  /** The parent one step records is an earlier item of a smaller level. */
  lemma {:induction false} StepParentEarlier(st: State, levels: seq<nat>, k: nat)
    requires k < |levels| && InRange(st.stack, k) && |st.parents| == k && Step(st, levels, k).Some?
    ensures var p := Step(st, levels, k).value.parents[k];
            p.Some? ==> p.value < k && levels[p.value] < levels[k]
  {
    match FindParent(st.stack, levels, levels[k])
    case NoParent =>
      assert Step(st, levels, k).value.parents == st.parents + [None];
    case Parent(s) =>
      assert Step(st, levels, k).value.parents == st.parents + [st.stack[s]];
    case NoneSlot(_) =>
  }

  /** A last parent that is an earlier item of a smaller level extends the property from the prefix. */
  lemma {:induction false} ParentsEarlierSnoc(levels: seq<nat>, ps: seq<Option<nat>>)
    requires |ps| == |levels| > 0
    requires ParentsEarlier(levels[..|levels| - 1], ps[..|levels| - 1])
    requires var k := |levels| - 1; ps[k].Some? ==> ps[k].value < k && levels[ps[k].value] < levels[k]
    ensures ParentsEarlier(levels, ps)
  {
    var k := |levels| - 1;
    forall i | 0 <= i < |ps| && ps[i].Some? ensures ps[i].value < i && levels[ps[i].value] < levels[i] {
      if i < k {
        assert ps[..k][i] == ps[i];
        assert levels[..k][i] == levels[i] && levels[..k][ps[i].value] == levels[ps[i].value];
      }
    }
  }

  /**
   * Levels that start at 0 and deepen by at most one from an item to the next:
   * an indented name never skips a level.
   */
  predicate WellIndented(levels: seq<nat>) {
    (levels != [] ==> levels[0] == 0) &&
    forall k :: 0 < k < |levels| ==> levels[k] <= levels[k - 1] + 1
  }

  /** Slot `j` holds the last item of level `j`, with nothing of level `j` or less after it. */
  predicate Slot(levels: seq<nat>, e: Option<nat>, j: nat) {
    e.Some? && e.value < |levels| && levels[e.value] == j &&
    forall m :: e.value < m < |levels| ==> levels[m] > j
  }

  /**
   * The stack after the items `levels` on a well-indented sheet: one slot per
   * level up to the last item's, each holding the last item of that level.
   */
  predicate Chain(levels: seq<nat>, stack: Stack) {
    |levels| > 0 && |stack| == levels[|levels| - 1] + 1 &&
    forall j :: 0 <= j < |stack| ==> Slot(levels, stack[j], j)
  }

  lemma {:induction false} NearestBelowPrefix(a: seq<nat>, b: seq<nat>, v: nat, j: nat)
    requires j <= |a| && j <= |b| && a[..j] == b[..j]
    ensures Nesting.NearestBelow(a, v, j) == Nesting.NearestBelow(b, v, j)
    decreases j
  {
    if j > 0 {
      assert a[j - 1] == a[..j][j - 1] == b[j - 1];
      assert a[..j - 1] == a[..j][..j - 1];
      NearestBelowPrefix(a, b, v, j - 1);
    }
  }

  /** On a chain, the parent search finds the nearest earlier item of a smaller level. */
  lemma {:induction false} ChainParent(levels: seq<nat>, stack: Stack, v: nat)
    requires Chain(levels, stack) && InRange(stack, |levels|) && v <= |stack|
    ensures v == 0 ==> FindParent(stack, levels, v) == NoParent && Nesting.NearestBelow(levels, v, |levels|) == None
    ensures v > 0 ==> FindParent(stack, levels, v) == Parent(v - 1) &&
                      Nesting.NearestBelow(levels, v, |levels|) == stack[v - 1]
  {
    var r := FindParent(stack, levels, v);
    if v == 0 {
      Nesting.SkipHigher(levels, v, 0, |levels|);
    } else {
      assert Slot(levels, stack[v - 1], v - 1);
      assert !PassedOver(stack, levels, v, v - 1);
      var p := stack[v - 1].value;
      Nesting.SkipHigher(levels, v, p + 1, |levels|);
    }
  }

  /** Pushing a well-indented item onto a chain gives the chain of the longer sheet. */
  lemma {:induction false} ChainPush(levels: seq<nat>, stack: Stack)
    requires |levels| > 1 && Chain(levels[..|levels| - 1], stack)
    requires levels[|levels| - 1] <= |stack|
    ensures Chain(levels, Updated(stack, |levels| - 1, levels[|levels| - 1]))
  {
    var k := |levels| - 1;
    var pre := levels[..k];
    var v := levels[k];
    var next := Updated(stack, k, v);
    forall j | 0 <= j < |next| ensures Slot(levels, next[j], j) {
      if j < v {
        assert next[j] == stack[j];
        assert Slot(pre, stack[j], j);
        var q := stack[j].value;
        assert levels[q] == pre[q];
        forall m | q < m < |levels| ensures levels[m] > j {
          if m < k { assert levels[m] == pre[m]; }
        }
      }
    }
  }

  /** A well-indented item's level is at most one more than the last level, so its parent's slot exists. */
  lemma {:induction false} ChainStep(levels: seq<nat>, st: State)
    requires |levels| > 1 && WellIndented(levels)
    requires Chain(levels[..|levels| - 1], st.stack) && InRange(st.stack, |levels| - 1)
    requires |st.parents| == |levels| - 1
    ensures Step(st, levels, |levels| - 1).Some?
    ensures Chain(levels, Step(st, levels, |levels| - 1).value.stack)
    ensures Step(st, levels, |levels| - 1).value.parents[|levels| - 1] == Nesting.ParentOf(levels, |levels| - 1)
  {
    var k := |levels| - 1;
    var pre := levels[..k];
    var v := levels[k];
    assert v <= pre[k - 1] + 1 == |st.stack|;
    ChainParent(pre, st.stack, v);
    PrefixFindParent(st.stack, levels, k, v);
    NearestBelowPrefix(pre, levels, v, k);
    ChainPush(levels, st.stack);
    if v == 0 {
      assert Updated(st.stack, k, 0) == [Some(k)];
    }
  }

  /** Items on the stack are all below `k`, so the search reads the same levels in the first `k` levels. */
  lemma {:induction false} PrefixFindParent(stack: Stack, levels: seq<nat>, k: nat, v: nat)
    requires k <= |levels| && InRange(stack, k)
    ensures FindParent(stack, levels[..k], v) == FindParent(stack, levels, v)
  {
    assert forall j :: 0 <= j < |stack| && stack[j].Some? ==> levels[..k][stack[j].value] == levels[stack[j].value];
    FindParentLevels(stack, levels[..k], levels, v);
  }

  /** The parent search reads the levels of the items on the stack only. */
  lemma {:induction false} FindParentLevels(stack: Stack, a: seq<nat>, b: seq<nat>, v: nat)
    requires InRange(stack, |a|) && InRange(stack, |b|)
    requires forall j :: 0 <= j < |stack| && stack[j].Some? ==> a[stack[j].value] == b[stack[j].value]
    ensures FindParent(stack, a, v) == FindParent(stack, b, v)
    decreases |stack|
  {
    if stack != [] {
      var n := |stack| - 1;
      var below := stack[..n];
      assert forall j :: 0 <= j < n ==> below[j] == stack[j];
      FindParentLevels(below, a, b, v);
    }
  }

  /** An item's parent depends on the items up to it only. */
  lemma {:induction false} ParentOfPrefix(levels: seq<nat>, k: nat, i: nat)
    requires i < k <= |levels|
    ensures Nesting.ParentOf(levels[..k], i) == Nesting.ParentOf(levels, i)
  {
    var pre := levels[..k];
    assert pre[i] == levels[i];
    assert pre[..i] == levels[..i];
    NearestBelowPrefix(pre, levels, levels[i], i);
  }

  /** Building one more item leaves the parents found so far alone. */
  lemma {:induction false} RunKeepsParents(levels: seq<nat>, i: nat)
    requires levels != [] && Run(levels).Some? && i < |levels| - 1
    ensures Run(levels[..|levels| - 1]).Some?
    ensures Run(levels).value.parents[i] == Run(levels[..|levels| - 1]).value.parents[i]
  {
    var k := |levels| - 1;
    var st := Run(levels[..k]).value;
    assert Run(levels).value.parents[..k] == st.parents;
  }

  lemma {:induction false} WellIndentedPrefix(levels: seq<nat>)
    requires levels != [] && WellIndented(levels)
    ensures WellIndented(levels[..|levels| - 1])
  {
    var pre := levels[..|levels| - 1];
    forall i | 0 < i < |pre| ensures pre[i] <= pre[i - 1] + 1 {
      assert pre[i] == levels[i] && pre[i - 1] == levels[i - 1];
    }
  }

  /**
   * On a well-indented sheet the stack never meets a `None` slot, and every
   * item's parent is the nearest earlier item of a smaller level.
   */
  lemma {:induction false} WellIndentedParents(levels: seq<nat>)
    requires WellIndented(levels)
    ensures Run(levels).Some?
    ensures forall k :: 0 <= k < |levels| ==> Run(levels).value.parents[k] == Nesting.ParentOf(levels, k)
    ensures levels != [] ==> Chain(levels, Run(levels).value.stack)
    decreases |levels|
  {
    if levels != [] {
      var k := |levels| - 1;
      var pre := levels[..k];
      WellIndentedPrefix(levels);
      WellIndentedParents(pre);
      var st := Run(pre).value;
      if k == 0 {
        assert st.stack == [];
        assert Nesting.ParentOf(levels, 0) == None;
      } else {
        ChainStep(levels, st);
        forall i | 0 <= i < k ensures Run(levels).value.parents[i] == Nesting.ParentOf(levels, i) {
          RunKeepsParents(levels, i);
          ParentOfPrefix(levels, k, i);
        }
      }
    }
  }

  /**
   * A name two levels deeper than the one above it pads the stack with a
   * `None` slot; the next name one level up reaches that slot and the build
   * raises. Levels 0, 2, 1 are enough.
   */
  lemma {:induction false} SkippedLevelFails()
    ensures Run([0, 2, 1]) == None
  {
    var l1: seq<nat> := [0];
    var l2: seq<nat> := [0, 2];
    var l3: seq<nat> := [0, 2, 1];
    assert l3[..2] == l2 && l2[..1] == l1 && l1[..0] == [];
    assert Run(l1[..0]) == Some(State([], []));
    assert FindParent([], l1, 0) == NoParent;
    assert Run(l1) == Some(State([Some(0)], [None]));
    var s2 := Updated([Some(0)], 1, 2);
    assert s2 == [Some(0), None, Some(1)];
    assert FindParent([Some(0)], l2, 2) == Parent(0);
    assert [None] + [Some(0)] == [None, Some(0)];
    assert Step(State([Some(0)], [None]), l2, 1) == Some(State(s2, [None, Some(0)]));
    assert Run(l2) == Some(State(s2, [None, Some(0)]));
    assert s2[..2] == [Some(0), None];
    assert FindParent([Some(0), None], l3, 1) == NoneSlot(1);
    assert FindParent(s2, l3, 1) == NoneSlot(1);
  }
  // ------------------------------------------------------ the repaired search

  /**
   * The parent search as it was evidently meant to run: a `None` slot left by
   * a skipped level is passed over instead of read.
   */
  function RepairedFindParent(stack: Stack, levels: seq<nat>, v: nat): (r: Lookup)
    requires InRange(stack, |levels|)
    ensures !r.NoneSlot?
    ensures r.Parent? ==> r.slot < |stack| && stack[r.slot].Some? && levels[stack[r.slot].value] < v
    ensures r.Parent? ==> forall j :: r.slot < j < |stack| && stack[j].Some? ==> levels[stack[j].value] >= v
    ensures r.NoParent? ==> forall j :: 0 <= j < |stack| && stack[j].Some? ==> levels[stack[j].value] >= v
    decreases |stack|
  {
    if stack == [] then NoParent
    else
      var n := |stack| - 1;
      if stack[n].Some? && levels[stack[n].value] < v then Parent(n)
      else
        var below := stack[..n];
        assert forall j :: 0 <= j < n ==> below[j] == stack[j];
        RepairedFindParent(below, levels, v)
  }

  /** One item of the repaired build: as `Step`, with the repaired search, so it never raises. */
  function RepairedStep(st: State, levels: seq<nat>, k: nat): (r: State)
    requires k < |levels| && InRange(st.stack, k)
    ensures |r.parents| == |st.parents| + 1 && r.parents[..|st.parents|] == st.parents
    ensures InRange(r.stack, k + 1)
  {
    var r := RepairedFindParent(st.stack, levels, levels[k]);
    if r.Parent? then State(Updated(st.stack, k, levels[k]), st.parents + [st.stack[r.slot]])
    else State([Some(k)], st.parents + [None])
  }

  /** The repaired build over items of the given levels: it always completes. */
  function RepairedRun(levels: seq<nat>): (r: State)
    ensures |r.parents| == |levels| && InRange(r.stack, |levels|)
    decreases |levels|
  {
    if levels == [] then State([], [])
    else
      var k := |levels| - 1;
      RepairedStep(RepairedRun(levels[..k]), levels, k)
  }

  /** Wherever the search as written finds a parent or none, the repaired search finds the same. */
  lemma {:induction false} RepairedFindParentAgrees(stack: Stack, levels: seq<nat>, v: nat)
    requires InRange(stack, |levels|) && !FindParent(stack, levels, v).NoneSlot?
    ensures RepairedFindParent(stack, levels, v) == FindParent(stack, levels, v)
    decreases |stack|
  {
    if stack != [] {
      var n := |stack| - 1;
      var below := stack[..n];
      assert forall j :: 0 <= j < n ==> below[j] == stack[j];
      if stack[n].Some? && levels[stack[n].value] >= v {
        RepairedFindParentAgrees(below, levels, v);
      }
    }
  }

  /** On every sheet the build as written completes, the repaired build gives the same stack and parents. */
  lemma {:induction false} RepairedRunAgrees(levels: seq<nat>)
    requires Run(levels).Some?
    ensures RepairedRun(levels) == Run(levels).value
    decreases |levels|
  {
    if levels != [] {
      var k := |levels| - 1;
      var st := Run(levels[..k]).value;
      RepairedRunAgrees(levels[..k]);
      RepairedFindParentAgrees(st.stack, levels, levels[k]);
    }
  }

  /** The parent the repaired step records is an earlier item of a smaller level. */
  lemma {:induction false} RepairedStepParentEarlier(st: State, levels: seq<nat>, k: nat)
    requires k < |levels| && InRange(st.stack, k) && |st.parents| == k
    ensures var p := RepairedStep(st, levels, k).parents[k];
            p.Some? ==> p.value < k && levels[p.value] < levels[k]
  {
    var r := RepairedFindParent(st.stack, levels, levels[k]);
    if r.Parent? {
      assert RepairedStep(st, levels, k).parents == st.parents + [st.stack[r.slot]];
    } else {
      assert RepairedStep(st, levels, k).parents == st.parents + [None];
    }
  }

  /** On every sheet, skipped levels or not, each parent the repaired build records is an earlier item of a smaller level. */
  lemma {:induction false} RepairedRunParentsEarlier(levels: seq<nat>)
    ensures ParentsEarlier(levels, RepairedRun(levels).parents)
    decreases |levels|
  {
    if levels != [] {
      var k := |levels| - 1;
      var st := RepairedRun(levels[..k]);
      RepairedRunParentsEarlier(levels[..k]);
      RepairedStepParentEarlier(st, levels, k);
      ParentsEarlierSnoc(levels, RepairedRun(levels).parents);
    }
  }

  /** Levels 0, 2, 1, on which the build as written raises: the repaired build puts both later items under the first. */
  lemma {:induction false} SkippedLevelRepaired()
    ensures RepairedRun([0, 2, 1]).parents == [None, Some(0), Some(0)]
  {
    var l1: seq<nat> := [0];
    var l2: seq<nat> := [0, 2];
    var l3: seq<nat> := [0, 2, 1];
    assert l3[..2] == l2 && l2[..1] == l1 && l1[..0] == [];
    assert RepairedRun(l1) == State([Some(0)], [None]);
    var s2 := Updated([Some(0)], 1, 2);
    assert s2 == [Some(0), None, Some(1)];
    assert RepairedFindParent([Some(0)], l2, 2) == Parent(0);
    assert RepairedRun(l2) == State(s2, [None, Some(0)]);
    assert s2[..2] == [Some(0), None] && s2[..2][..1] == [Some(0)];
    assert RepairedFindParent(s2, l3, 1) == Parent(0);
  }
}
