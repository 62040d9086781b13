/**
 * What the nesting of `server/services/excel_parser.py` keeps: reading the
 * trees of `extract_hierarchical_data` in pre-order gives back the logical
 * rows in sheet order, each exactly once, and flattening them gives one item
 * per row, in that order, unless some quantity is not a number.
 */
module ExcelHierarchy {
  import opened Wrappers
  import opened Numbers
  import opened ExcelParser

  /** The rows of a forest, each node before its children. */
  function Preorder(ns: seq<Node>): seq<LogicalRow>
    decreases ns, 0
  {
    if ns == [] then [] else PreorderNode(ns[0]) + Preorder(ns[1..])
  }

  function PreorderNode(n: Node): seq<LogicalRow>
    decreases n, 1
  {
    [n.row] + Preorder(n.children)
  }

  lemma {:induction false} PreorderCons(n: Node, rest: seq<Node>)
    ensures Preorder([n] + rest) == PreorderNode(n) + Preorder(rest)
  {
    assert ([n] + rest)[1..] == rest;
  }

  // ------------------------------------------------------------- spans

  /** The first row from `k` on that is not deeper than row `i` (or the end). */
  function SpanEnd(rows: seq<LogicalRow>, i: nat, k: nat): (e: nat)
    requires i < k <= |rows|
    ensures k <= e <= |rows|
    decreases |rows| - k
  {
    if k == |rows| || rows[k].level <= rows[i].level then k else SpanEnd(rows, i, k + 1)
  }

  /** Where the subtree of row `i` ends: the rows strictly between are its descendants. */
  function End(rows: seq<LogicalRow>, i: nat): (e: nat)
    requires i < |rows|
    ensures i < e <= |rows|
  {
    SpanEnd(rows, i, i + 1)
  }

  lemma {:induction false} SpanEndSpec(rows: seq<LogicalRow>, i: nat, k: nat)
    requires i < k <= |rows|
    ensures forall m :: k <= m < SpanEnd(rows, i, k) ==> rows[m].level > rows[i].level
    ensures SpanEnd(rows, i, k) < |rows| ==> rows[SpanEnd(rows, i, k)].level <= rows[i].level
    decreases |rows| - k
  {
    if k < |rows| && rows[k].level > rows[i].level {
      SpanEndSpec(rows, i, k + 1);
    }
  }

  lemma {:induction false} SpanEndFirst(rows: seq<LogicalRow>, i: nat, k: nat, m: nat)
    requires i < k <= m <= |rows|
    requires m == |rows| || rows[m].level <= rows[i].level
    ensures SpanEnd(rows, i, k) <= m
    decreases |rows| - k
  {
    if k < m && rows[k].level > rows[i].level {
      SpanEndFirst(rows, i, k + 1, m);
    }
  }

  /** Rows of the subtree of `i` have their parent inside it. */
  lemma {:induction false} ParentInsideSpan(rows: seq<LogicalRow>, i: nat, j: nat)
    requires i < |rows| && i < j < End(rows, i)
    ensures ParentOf(rows, j).Some? && i <= ParentOf(rows, j).value
  {
    SpanEndSpec(rows, i, i + 1);
    ParentOfSpec(rows, j);
    assert rows[i].level < rows[j].level;
  }

  /** No row from the end of the subtree of `i` on is a child of `i`. */
  lemma {:induction false} NoChildBeyondSpan(rows: seq<LogicalRow>, i: nat, j: nat)
    requires i < |rows| && End(rows, i) <= j < |rows|
    ensures ParentOf(rows, j) != Some(i)
  {
    var e := End(rows, i);
    SpanEndSpec(rows, i, i + 1);
    ParentOfSpec(rows, j);
    assert rows[e].level <= rows[i].level;
  }

  /** A row below `i` that no earlier row of the subtree undercuts is a child of `i`. */
  lemma {:induction false} BoundaryIsChild(rows: seq<LogicalRow>, i: nat, x: nat)
    requires i < |rows| && i < x < End(rows, i)
    requires forall m :: i < m < x ==> rows[m].level >= rows[x].level
    ensures ParentOf(rows, x) == Some(i)
  {
    SpanEndSpec(rows, i, i + 1);
    ParentOfSpec(rows, x);
    assert rows[i].level < rows[x].level;
  }

  /** The subtree of a child ends no later than its parent's. */
  lemma {:induction false} ChildSpanWithin(rows: seq<LogicalRow>, i: nat, x: nat)
    requires i < |rows| && i < x < End(rows, i)
    ensures End(rows, x) <= End(rows, i)
  {
    SpanEndSpec(rows, i, i + 1);
    SpanEndFirst(rows, x, x + 1, End(rows, i));
  }

  // ------------------------------------------------------------- skipping

  lemma {:induction false} SkipSubtrees(rows: seq<LogicalRow>, i: nat, a: nat, b: nat)
    requires i < a <= b <= |rows|
    requires forall m :: a <= m < b ==> ParentOf(rows, m) != Some(i)
    ensures Subtrees(rows, Parents(rows), i, a) == Subtrees(rows, Parents(rows), i, b)
    decreases b - a
  {
    if a < b {
      SkipSubtrees(rows, i, a + 1, b);
    }
  }

  lemma {:induction false} SkipRoots(rows: seq<LogicalRow>, a: nat, b: nat)
    requires a <= b <= |rows|
    requires forall m :: a <= m < b ==> ParentOf(rows, m).Some?
    ensures Roots(rows, Parents(rows), a) == Roots(rows, Parents(rows), b)
    decreases b - a
  {
    if a < b {
      SkipRoots(rows, a + 1, b);
    }
  }

  /** The descendants of `x` are skipped by the search for further children of `i`. */
  lemma {:induction false} SkipDescendants(rows: seq<LogicalRow>, i: nat, x: nat)
    requires i < x < |rows|
    ensures Subtrees(rows, Parents(rows), i, x + 1) == Subtrees(rows, Parents(rows), i, End(rows, x))
  {
    forall m | x + 1 <= m < End(rows, x)
      ensures ParentOf(rows, m) != Some(i)
    {
      ParentInsideSpan(rows, x, m);
    }
    SkipSubtrees(rows, i, x + 1, End(rows, x));
  }

  /** The descendants of a top-level row are skipped by the search for further roots. */
  lemma {:induction false} SkipDescendantRoots(rows: seq<LogicalRow>, x: nat)
    requires x < |rows|
    ensures Roots(rows, Parents(rows), x + 1) == Roots(rows, Parents(rows), End(rows, x))
  {
    forall m | x + 1 <= m < End(rows, x)
      ensures ParentOf(rows, m).Some?
    {
      ParentInsideSpan(rows, x, m);
    }
    SkipRoots(rows, x + 1, End(rows, x));
  }

  /**
   * If no row in `[lo, x)` is shallower than `x`, no row in `[lo, End(x))`
   * is shallower than the row that ends `x`'s subtree.
   */
  lemma {:induction false} NextBoundary(rows: seq<LogicalRow>, lo: nat, x: nat)
    requires lo <= x < |rows|
    requires forall m :: lo <= m < x ==> rows[m].level >= rows[x].level
    ensures End(rows, x) < |rows| ==> forall m :: lo <= m < End(rows, x) ==> rows[m].level >= rows[End(rows, x)].level
  {
    SpanEndSpec(rows, x, x + 1);
  }

  // ------------------------------------------------------------ pre-order

  /** The tree of row `i` holds exactly the rows of its span, in sheet order. */
  lemma {:induction false} TreePreorder(rows: seq<LogicalRow>, i: nat)
    requires i < |rows|
    ensures PreorderNode(Tree(rows, Parents(rows), i)) == rows[i..End(rows, i)]
    decreases |rows| - i, 1
  {
    SubtreesPreorder(rows, i, i + 1);
    assert [rows[i]] + rows[i + 1..End(rows, i)] == rows[i..End(rows, i)];
  }

  /** From a child boundary `x` on, the children of `i` hold the rest of its span. */
  lemma {:induction false} SubtreesPreorder(rows: seq<LogicalRow>, i: nat, x: nat)
    requires i < |rows| && i < x <= End(rows, i)
    requires x < End(rows, i) ==> forall m :: i < m < x ==> rows[m].level >= rows[x].level
    ensures Preorder(Subtrees(rows, Parents(rows), i, x)) == rows[x..End(rows, i)]
    decreases |rows| - i, 0, |rows| - x
  {
    var ps := Parents(rows);
    var e := End(rows, i);
    if x == e {
      forall m | e <= m < |rows|
        ensures ParentOf(rows, m) != Some(i)
      {
        NoChildBeyondSpan(rows, i, m);
      }
      SkipSubtrees(rows, i, x, |rows|);
    } else {
      BoundaryIsChild(rows, i, x);
      ChildSpanWithin(rows, i, x);
      var ex := End(rows, x);
      assert Subtrees(rows, ps, i, x) == [Tree(rows, ps, x)] + Subtrees(rows, ps, i, x + 1);
      SkipDescendants(rows, i, x);
      NextBoundary(rows, i + 1, x);
      calc {
        Preorder(Subtrees(rows, ps, i, x));
        Preorder([Tree(rows, ps, x)] + Subtrees(rows, ps, i, ex));
        { PreorderCons(Tree(rows, ps, x), Subtrees(rows, ps, i, ex)); }
        PreorderNode(Tree(rows, ps, x)) + Preorder(Subtrees(rows, ps, i, ex));
        { TreePreorder(rows, x); SubtreesPreorder(rows, i, ex); }
        rows[x..ex] + rows[ex..e];
        rows[x..e];
      }
    }
  }

  /** From a root boundary `x` on, the top-level trees hold the rest of the rows. */
  lemma {:induction false} RootsPreorder(rows: seq<LogicalRow>, x: nat)
    requires x <= |rows|
    requires x < |rows| ==> forall m :: 0 <= m < x ==> rows[m].level >= rows[x].level
    ensures Preorder(Roots(rows, Parents(rows), x)) == rows[x..]
    decreases |rows| - x
  {
    var ps := Parents(rows);
    if x < |rows| {
      ParentOfSpec(rows, x);
      var ex := End(rows, x);
      assert Roots(rows, ps, x) == [Tree(rows, ps, x)] + Roots(rows, ps, x + 1);
      SkipDescendantRoots(rows, x);
      NextBoundary(rows, 0, x);
      calc {
        Preorder(Roots(rows, ps, x));
        Preorder([Tree(rows, ps, x)] + Roots(rows, ps, ex));
        { PreorderCons(Tree(rows, ps, x), Roots(rows, ps, ex)); }
        PreorderNode(Tree(rows, ps, x)) + Preorder(Roots(rows, ps, ex));
        { TreePreorder(rows, x); RootsPreorder(rows, ex); }
        rows[x..ex] + rows[ex..];
        rows[x..];
      }
    }
  }

  /**
   * The nesting loses no row, repeats none and keeps their order: the
   * forest read in pre-order is the list of logical rows.
   */
  lemma {:induction false} HierarchyKeepsRows(rows: seq<LogicalRow>)
    ensures Preorder(Roots(rows, Parents(rows), 0)) == rows
  {
    RootsPreorder(rows, 0);
  }

  lemma {:induction false} HierarchicalDataKeepsRows(sh: Sheet)
    ensures HierarchicalData(sh).Some? <==> Scan(sh, 0).Some?
    ensures HierarchicalData(sh).Some? ==> Preorder(HierarchicalData(sh).value) == Scan(sh, 0).value
  {
    if Scan(sh, 0).Some? {
      HierarchyKeepsRows(Scan(sh, 0).value);
    }
  }

  // ----------------------------------------------------------- flattening

  /** A row whose quantity `float()` accepts (an empty quantity is read as 0). */
  predicate Parses(row: LogicalRow) {
    row.quantity == [] || ParseFloat(row.quantity).Some?
  }

  predicate AllParse(ps: seq<LogicalRow>) {
    forall k :: 0 <= k < |ps| ==> Parses(ps[k])
  }

  /** Item `k` is row `k` at some depth not above `level`. */
  predicate Matches(xs: seq<FlatItem>, ps: seq<LogicalRow>, level: nat) {
    |xs| == |ps| && forall k :: 0 <= k < |xs| ==> xs[k].level >= level && FlatOf(ps[k], xs[k].level) == Some(xs[k])
  }

  lemma {:induction false} MatchesConcat(xs: seq<FlatItem>, ps: seq<LogicalRow>, ys: seq<FlatItem>, qs: seq<LogicalRow>, level: nat)
    requires Matches(xs, ps, level) && Matches(ys, qs, level)
    ensures Matches(xs + ys, ps + qs, level)
  {
    forall k | 0 <= k < |xs + ys|
      ensures (xs + ys)[k].level >= level && FlatOf((ps + qs)[k], (xs + ys)[k].level) == Some((xs + ys)[k])
    {
      if k >= |xs| {
        assert (xs + ys)[k] == ys[k - |xs|] && (ps + qs)[k] == qs[k - |xs|];
      }
    }
  }

  lemma {:induction false} AllParseConcat(ps: seq<LogicalRow>, qs: seq<LogicalRow>)
    ensures AllParse(ps + qs) <==> AllParse(ps) && AllParse(qs)
  {
    if AllParse(ps) && AllParse(qs) {
      forall k | 0 <= k < |ps + qs|
        ensures Parses((ps + qs)[k])
      {
        if k >= |ps| {
          assert (ps + qs)[k] == qs[k - |ps|];
        }
      }
    }
    if AllParse(ps + qs) {
      forall k | 0 <= k < |ps|
        ensures Parses(ps[k])
      {
        assert (ps + qs)[k] == ps[k];
      }
      forall k | 0 <= k < |qs|
        ensures Parses(qs[k])
      {
        assert (ps + qs)[|ps| + k] == qs[k];
      }
    }
  }

  lemma {:induction false} FlatOfParses(row: LogicalRow, level: nat)
    ensures FlatOf(row, level).Some? <==> Parses(row)
    ensures FlatOf(row, level).Some? ==> FlatOf(row, level).value.level == level
  {
  }

  /**
   * Flattening a tree fails exactly when a row of it has an unreadable
   * quantity; otherwise it gives one item per row, in pre-order, the root
   * at `level` and every other row deeper.
   */
  lemma {:induction false} FlattenNode(n: Node, level: nat)
    ensures Flatten(n, level).Some? <==> AllParse(PreorderNode(n))
    ensures Flatten(n, level).Some? ==>
              Matches(Flatten(n, level).value, PreorderNode(n), level) &&
              Flatten(n, level).value[0].level == level
    decreases n, 1
  {
    FlattenForest(n.children, level + 1);
    FlatOfParses(n.row, level);
    AllParseConcat([n.row], Preorder(n.children));
    match FlatOf(n.row, level)
    case None =>
      assert !Parses(PreorderNode(n)[0]);
    case Some(f) =>
      if FlattenAll(n.children, level + 1).Some? {
        var ys := FlattenAll(n.children, level + 1).value;
        MatchesLower(ys, Preorder(n.children), level + 1);
        MatchesConcat([f], [n.row], ys, Preorder(n.children), level);
      }
  }

  lemma {:induction false} FlattenForest(ns: seq<Node>, level: nat)
    ensures FlattenAll(ns, level).Some? <==> AllParse(Preorder(ns))
    ensures FlattenAll(ns, level).Some? ==> Matches(FlattenAll(ns, level).value, Preorder(ns), level)
    decreases ns, 0
  {
    if ns != [] {
      FlattenNode(ns[0], level);
      FlattenForest(ns[1..], level);
      AllParseConcat(PreorderNode(ns[0]), Preorder(ns[1..]));
      if Flatten(ns[0], level).Some? && FlattenAll(ns[1..], level).Some? {
        MatchesConcat(Flatten(ns[0], level).value, PreorderNode(ns[0]),
                      FlattenAll(ns[1..], level).value, Preorder(ns[1..]), level);
      }
    }
  }

  lemma {:induction false} MatchesLower(xs: seq<FlatItem>, ps: seq<LogicalRow>, level: nat)
    requires level > 0 && Matches(xs, ps, level)
    ensures Matches(xs, ps, level - 1)
  {
  }

  /**
   * `extract_items_from_buffer_with_sheet`: the items are the logical rows
   * of the sheet, one each and in sheet order, unless the sheet has no name
   * column or some quantity is not a number, when there are none.
   */
  lemma {:induction false} SheetItemsAreRows(sh: Sheet)
    ensures Scan(sh, 0).Some? && AllParse(Scan(sh, 0).value) ==> Matches(SheetItems(sh), Scan(sh, 0).value, 0)
    ensures Scan(sh, 0).None? || !AllParse(Scan(sh, 0).value) ==> SheetItems(sh) == []
  {
    HierarchicalDataKeepsRows(sh);
    if Scan(sh, 0).Some? {
      FlattenForest(HierarchicalData(sh).value, 0);
    }
  }
}
