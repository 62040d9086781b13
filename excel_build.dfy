/**
 * `excel_verification_api.py`, the rest of `extract_hierarchical_data`: the
 * header row and the column map, the logical rows put into the stack-built
 * hierarchy of `ExcelStack`, and the hierarchy as the tree `to_json` writes.
 */
module ExcelBuild {
  import opened Wrappers
  import opened Text
  import ExcelParser
  import EV = ExcelVerification
  import opened ExcelStack

  type Sheet = ExcelParser.Sheet

  // ---------------------------------------------------------------- columns

  /** The field a header cell names; `_find_column_positions` tests the words in this order. */
  datatype Role = NameColumn | UnitColumn | QuantityColumn | PriceColumn | AmountColumn | NotesColumn

  /** The `if`/`elif` chain on a header cell's stripped text. */
  function RoleOf(cell: string): Option<Role> {
    if Contains(cell, "費目") || Contains(cell, "工種") || Contains(cell, "種別") ||
       Contains(cell, "細別") || Contains(cell, "規格") then Some(NameColumn)
    else if Contains(cell, "単位") then Some(UnitColumn)
    else if Contains(cell, "数量") then Some(QuantityColumn)
    else if Contains(cell, "単価") then Some(PriceColumn)
    else if Contains(cell, "金額") then Some(AmountColumn)
    else if Contains(cell, "摘要") then Some(NotesColumn)
    else None
  }

  /** Column `c` of row `h` is a present cell naming `role`. */
  predicate Names(sh: Sheet, h: nat, c: nat, role: Role) {
    !sh.na(h, c) && RoleOf(sh.text(h, c)) == Some(role)
  }

  /**
   * The last column before `c` that names `role`: the column scan assigns
   * `positions[role]` at each such column, so the last one stays.
   */
  function LastNaming(sh: Sheet, h: nat, role: Role, c: nat): (k: Option<nat>)
    ensures k.Some? ==> k.value < c && Names(sh, h, k.value, role) &&
                        forall j :: k.value < j < c ==> !Names(sh, h, j, role)
    ensures k.None? ==> forall j :: 0 <= j < c ==> !Names(sh, h, j, role)
    decreases c
  {
    if c == 0 then None
    else if Names(sh, h, c - 1, role) then Some(c - 1)
    else LastNaming(sh, h, role, c - 1)
  }

  /** `_find_column_positions`: the last column naming each field, else the fallback 1, 2, 4, 5, 6, 7. */
  function ColumnPositions(sh: Sheet, h: nat): EV.Positions {
    EV.Positions(LastNaming(sh, h, NameColumn, sh.width).GetOr(1),
                 LastNaming(sh, h, UnitColumn, sh.width).GetOr(2),
                 LastNaming(sh, h, QuantityColumn, sh.width).GetOr(4),
                 LastNaming(sh, h, PriceColumn, sh.width).GetOr(5),
                 LastNaming(sh, h, AmountColumn, sh.width).GetOr(6),
                 LastNaming(sh, h, NotesColumn, sh.width).GetOr(7))
  }

  /**
   * The amount column is the last header cell whose text names an amount and
   * none of the words checked before it; with no such cell it is column 6.
   */
  lemma {:induction false} AmountColumnChosen(sh: Sheet, h: nat)
    ensures var a := ColumnPositions(sh, h).amount;
            (a < sh.width && !sh.na(h, a) && Contains(sh.text(h, a), "金額") &&
             !Contains(sh.text(h, a), "単価") && !Contains(sh.text(h, a), "費目") &&
             forall j :: a < j < sh.width ==> !Names(sh, h, j, AmountColumn)) ||
            (a == 6 && forall j :: 0 <= j < sh.width ==> !Names(sh, h, j, AmountColumn))
  {
    var k := LastNaming(sh, h, AmountColumn, sh.width);
    if k.Some? {
      assert RoleOf(sh.text(h, k.value)) == Some(AmountColumn);
    }
  }

  // --------------------------------------------------------------- building

  /** A named logical row as `HierarchicalItem`, without its children. */
  datatype Item = Item(fields: EV.Fields, level: nat)

  /** The rows `_build_hierarchy` keeps (those with a name), with their levels. */
  function Named(rows: seq<EV.LogicalRow>): (items: seq<Item>)
    ensures |items| <= |rows|
    decreases |rows|
  {
    if rows == [] then []
    else
      var n := |rows| - 1;
      var name := rows[n].fields.itemName;
      Named(rows[..n]) + (if name == [] then [] else [Item(rows[n].fields, LeadingLevel(name))])
  }

  lemma {:induction false} NamedLevels(rows: seq<EV.LogicalRow>)
    ensures forall i :: 0 <= i < |Named(rows)| ==>
              Named(rows)[i].fields.itemName != [] && Named(rows)[i].level == LeadingLevel(Named(rows)[i].fields.itemName)
    decreases |rows|
  {
    if rows != [] {
      NamedLevels(rows[..|rows| - 1]);
    }
  }

  function Levels(items: seq<Item>): (ls: seq<nat>)
    ensures |ls| == |items| && forall i :: 0 <= i < |items| ==> ls[i] == items[i].level
  {
    seq(|items|, i requires 0 <= i < |items| => items[i].level)
  }

  /** The built hierarchy: the items in build order, each with its parent's number or `None` for a root. */
  datatype Forest = Forest(items: seq<Item>, parents: seq<Option<nat>>)

  predicate ValidForest(f: Forest) {
    |f.parents| == |f.items| &&
    forall k :: 0 <= k < |f.parents| && f.parents[k].Some? ==> f.parents[k].value < k
  }

  /** `_build_hierarchy(logical_rows)`; `None` where the stack search raises. */
  function Hierarchy(rows: seq<EV.LogicalRow>): (r: Option<Forest>)
    ensures r.Some? ==> ValidForest(r.value) && r.value.items == Named(rows)
  {
    var items := Named(rows);
    match Run(Levels(items))
    case None => None
    case Some(st) =>
      RunParentsEarlier(Levels(items));
      Some(Forest(items, st.parents))
  }

  /**
   * `_build_hierarchy` with the parent search passing over the `None` slots a
   * skipped level leaves: it always completes.
   */
  function RepairedHierarchy(rows: seq<EV.LogicalRow>): (f: Forest)
    ensures ValidForest(f) && f.items == Named(rows)
  {
    var items := Named(rows);
    RepairedRunParentsEarlier(Levels(items));
    Forest(items, RepairedRun(Levels(items)).parents)
  }

  /** Wherever the build as written completes, the repaired build gives the same forest. */
  lemma {:induction false} RepairedHierarchyAgrees(rows: seq<EV.LogicalRow>)
    requires Hierarchy(rows).Some?
    ensures Hierarchy(rows).value == RepairedHierarchy(rows)
  {
    RepairedRunAgrees(Levels(Named(rows)));
  }

  /** Once the build has raised, more rows do not bring it back. */
  lemma {:induction false} RunStaysFailed(levels: seq<nat>, k: nat)
    requires k <= |levels| && Run(levels[..k]) == None
    ensures Run(levels) == None
    decreases |levels| - k
  {
    if k < |levels| {
      assert levels[..k + 1][..k] == levels[..k];
      RunStaysFailed(levels, k + 1);
    } else {
      assert levels[..k] == levels;
    }
  }

  /** Reading one more row adds its item, if it has a name. */
  lemma {:induction false} NamedStep(rows: seq<EV.LogicalRow>, i: nat)
    requires i < |rows|
    ensures Named(rows[..i + 1]) == Named(rows[..i]) +
              (if rows[i].fields.itemName == [] then [] else [Item(rows[i].fields, LeadingLevel(rows[i].fields.itemName))])
  {
    assert rows[..i + 1][..i] == rows[..i];
  }

  /** The items of the first `i` rows come first among those of all rows. */
  lemma {:induction false} NamedPrefix(rows: seq<EV.LogicalRow>, i: nat)
    requires i <= |rows|
    ensures |Named(rows[..i])| <= |Named(rows)| && Named(rows[..i]) == Named(rows)[..|Named(rows[..i])|]
    decreases |rows| - i
  {
    if i < |rows| {
      NamedPrefix(rows, i + 1);
      NamedStep(rows, i);
    } else {
      assert rows[..i] == rows;
    }
  }

  /** One more item is one more `Step` of the build. */
  lemma {:induction false} RunAppend(items: seq<Item>, x: Item, st: State)
    requires Run(Levels(items)) == Some(st)
    ensures Run(Levels(items + [x])) == Step(st, Levels(items + [x]), |items|)
  {
    assert Levels(items + [x])[..|items|] == Levels(items);
  }

  /** A build that raised on the items of the first `i` rows raises on all of them. */
  lemma {:induction false} BuildFails(rows: seq<EV.LogicalRow>, i: nat)
    requires i <= |rows| && Run(Levels(Named(rows[..i]))) == None
    ensures Run(Levels(Named(rows))) == None
  {
    NamedPrefix(rows, i);
    var n := |Named(rows[..i])|;
    assert Levels(Named(rows))[..n] == Levels(Named(rows[..i]));
    RunStaysFailed(Levels(Named(rows)), n);
  }

  /**
   * `_build_hierarchy`, row by row: a row without a name is skipped; an item
   * with no parent starts a new root and resets the stack; an item under a
   * parent joins its children and the stack is updated.
   */
  method BuildHierarchy(rows: seq<EV.LogicalRow>) returns (forest: Option<Forest>)
    ensures forest == Hierarchy(rows)
  {
    var items: seq<Item> := [];
    var stack: Stack := [];
    var parents: seq<Option<nat>> := [];
    for i := 0 to |rows|
      invariant items == Named(rows[..i])
      invariant Run(Levels(items)) == Some(State(stack, parents))
    {
      NamedStep(rows, i);
      var row := rows[i];
      var name := row.fields.itemName;
      if name == [] {
        continue;
      }
      var level := LeadingLevel(name);
      var k := |items|;
      var item := Item(row.fields, level);
      RunAppend(items, item, State(stack, parents));
      items := items + [item];
      var levels := Levels(items);
      match FindParent(stack, levels, level)
      case NoneSlot(_) =>
        BuildFails(rows, i + 1);
        return None;
      case NoParent =>
        stack := [Some(k)];
        parents := parents + [None];
      case Parent(s) =>
        parents := parents + [stack[s]];
        stack := UpdateStack(stack, k, level);
    }
    assert rows[..|rows|] == rows;
    RunParentsEarlier(Levels(items));
    return Some(Forest(items, parents));
  }

  // ------------------------------------------------------------------ trees

  /** An item with its children, as `to_json` writes it. */
  datatype Node = Node(fields: EV.Fields, level: nat, children: seq<Node>)

  /** The children of item `i` numbered `j` or later, in the order they were appended. */
  function ChildrenFrom(f: Forest, i: nat, j: nat): (cs: seq<nat>)
    requires ValidForest(f)
    ensures forall k :: 0 <= k < |cs| ==> j <= cs[k] < |f.items| && f.parents[cs[k]] == Some(i)
    decreases |f.items| - j
  {
    if j >= |f.items| then []
    else (if f.parents[j] == Some(i) then [j] else []) + ChildrenFrom(f, i, j + 1)
  }

  /** Every item numbered `j` or later whose parent is `i` is among the children listed, at position `k`. */
  lemma {:induction false} ChildrenFromComplete(f: Forest, i: nat, j: nat, c: nat) returns (k: nat)
    requires ValidForest(f) && j <= c < |f.items| && f.parents[c] == Some(i)
    ensures k < |ChildrenFrom(f, i, j)| && ChildrenFrom(f, i, j)[k] == c
    decreases |f.items| - j
  {
    var cs := ChildrenFrom(f, i, j);
    if c == j {
      k := 0;
    } else {
      var rest := ChildrenFrom(f, i, j + 1);
      var k' := ChildrenFromComplete(f, i, j + 1, c);
      if f.parents[j] == Some(i) {
        assert cs == [j] + rest;
        k := k' + 1;
      } else {
        assert cs == rest;
        k := k';
      }
    }
  }

  /** The children are listed in the order they were appended, which is increasing. */
  lemma {:induction false} ChildrenFromOrdered(f: Forest, i: nat, j: nat, a: nat, b: nat)
    requires ValidForest(f) && a < b < |ChildrenFrom(f, i, j)|
    ensures ChildrenFrom(f, i, j)[a] < ChildrenFrom(f, i, j)[b]
    decreases |f.items| - j
  {
    var cs := ChildrenFrom(f, i, j);
    var rest := ChildrenFrom(f, i, j + 1);
    if f.parents[j] == Some(i) {
      assert cs == [j] + rest;
      assert cs[b] == rest[b - 1];
      if a > 0 {
        assert cs[a] == rest[a - 1];
        ChildrenFromOrdered(f, i, j + 1, a - 1, b - 1);
      } else {
        assert cs[0] == j;
        assert rest[b - 1] >= j + 1;
      }
    } else {
      assert cs == rest;
      ChildrenFromOrdered(f, i, j + 1, a, b);
    }
  }

  /** Every child comes after its parent, so item `i`'s children are among those after it. */
  function Children(f: Forest, i: nat): (cs: seq<nat>)
    requires ValidForest(f) && i < |f.items|
    ensures forall k :: 0 <= k < |cs| ==> i < cs[k] < |f.items| && f.parents[cs[k]] == Some(i)
  {
    ChildrenFrom(f, i, i + 1)
  }

  /** Every item whose parent is `i` is one of `i`'s children: a parent always comes before its child. */
  lemma {:induction false} ChildrenComplete(f: Forest, i: nat, c: nat)
    requires ValidForest(f) && i < |f.items| && c < |f.items| && f.parents[c] == Some(i)
    ensures c in Children(f, i)
  {
    assert f.parents[c].value < c;
    var k := ChildrenFromComplete(f, i, i + 1, c);
  }

  /** Item `i` and its descendants. */
  function Tree(f: Forest, i: nat): (t: Node)
    requires ValidForest(f) && i < |f.items|
    ensures t.fields == f.items[i].fields && t.level == f.items[i].level
    ensures |t.children| == |Children(f, i)|
    decreases |f.items| - i
  {
    var cs := Children(f, i);
    Node(f.items[i].fields, f.items[i].level, seq(|cs|, k requires 0 <= k < |cs| => Tree(f, cs[k])))
  }

  /** The items without a parent numbered `j` or later, in order. */
  function RootsFrom(f: Forest, j: nat): (rs: seq<nat>)
    requires ValidForest(f)
    ensures forall k :: 0 <= k < |rs| ==> j <= rs[k] < |f.items| && f.parents[rs[k]] == None
    ensures forall c :: j <= c < |f.items| && f.parents[c] == None ==> c in rs
    decreases |f.items| - j
  {
    if j >= |f.items| then []
    else (if f.parents[j] == None then [j] else []) + RootsFrom(f, j + 1)
  }

  /** `root_items`: the trees of the items without a parent, in build order. */
  function RootTrees(f: Forest): (ts: seq<Node>)
    requires ValidForest(f)
    ensures |ts| == |RootsFrom(f, 0)|
  {
    var rs := RootsFrom(f, 0);
    seq(|rs|, k requires 0 <= k < |rs| => Tree(f, rs[k]))
  }

  /**
   * On a well-indented sheet the build succeeds and every item's parent is
   * the nearest earlier item of a smaller level.
   */
  lemma {:induction false} WellIndentedBuild(rows: seq<EV.LogicalRow>)
    requires WellIndented(Levels(Named(rows)))
    ensures Hierarchy(rows).Some?
    ensures forall k :: 0 <= k < |Named(rows)| ==>
              Hierarchy(rows).value.parents[k] == ExcelStack.Nesting.ParentOf(Levels(Named(rows)), k)
  {
    WellIndentedParents(Levels(Named(rows)));
  }
}
