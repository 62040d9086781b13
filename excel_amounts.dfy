/**
 * `excel_verification_api.py`, the amount checks on the built hierarchy:
 * `_verify_amount_calculations` and its `_calculate_*` business totals on the
 * root items, `ComprehensiveVerifier` (`verify_business_logic` and
 * `verify_recursive`) on the tree `to_json` writes, and `verify_excel_file`,
 * which de-duplicates the mismatches of both by path and level.
 *
 * Amounts are reals: Python's binary floating point is not modelled.
 */
module ExcelAmounts {
  import opened Wrappers
  import opened Text
  import opened Numbers
  import EV = ExcelVerification
  import opened ExcelBuild

  /** Two amounts this close agree. */
  const Tolerance: real := 0.01

  const NetCost: string := "純工事費"
  const CostOfWork: string := "工事原価"
  const ContractPrice: string := "工事価格"
  const Tax: string := "消費税額及び地方消費税額"
  const GrandTotal: string := "工事費計"
  const DirectCost: string := "直接工事費"
  /** The children the cost of work and the contract price add, with their one-space indent. */
  const SiteManagement: string := "　現場管理費"
  const GeneralManagement: string := "　一般管理費等"

  /** The items `verify_recursive` leaves to the business totals. */
  const BusinessNames: seq<string> := [NetCost, CostOfWork, ContractPrice, GrandTotal, DirectCost]

  function Name(n: Node): string {
    n.fields.itemName
  }

  // ---------------------------------------------------------------- amounts

  /** `float(amount.replace(',', '')) if amount else 0.0`, with 0.0 where `float` raises. */
  function Amount(s: string): real {
    if s == [] then 0.0 else ParseFloat(ReplaceAll(s, ",", [])).GetOr(0.0)
  }

  /** `float(amount) if amount else 0.0`, with 0.0 where `float` raises: commas are not removed. */
  function PlainAmount(s: string): real {
    if s == [] then 0.0 else ParseFloat(s).GetOr(0.0)
  }

  function AmountOf(n: Node): real {
    Amount(n.fields.amount)
  }

  /** Removing a character distributes over concatenation. */
  lemma {:induction false} RemoveCommasConcat(a: string, b: string)
    ensures ReplaceAll(a + b, ",", []) == ReplaceAll(a, ",", []) + ReplaceAll(b, ",", [])
    decreases |a|
  {
    if a == [] {
      assert a + b == b;
    } else {
      assert (a + b)[0] == a[0] && (a + b)[1..] == a[1..] + b;
      RemoveCommasConcat(a[1..], b);
      if a[0] == ',' {
        assert StartsWith(a, ",") && StartsWith(a + b, ",");
      } else {
        assert !StartsWith(a, ",") && !StartsWith(a + b, ",");
      }
    }
  }

  lemma {:induction false} RemoveOneComma(a: string, b: string)
    ensures ReplaceAll(a + [','] + b, ",", []) == ReplaceAll(a + b, ",", [])
  {
    RemoveCommasConcat(a + [','], b);
    RemoveCommasConcat(a, [',']);
    RemoveCommasConcat(a, b);
    assert StartsWith([','], ",");
    assert ReplaceAll([','], ",", []) == [] by {
      assert [','][1..] == [];
    }
  }

  /** A thousands separator anywhere in a non-empty amount is ignored. */
  lemma {:induction false} CommasIgnored(a: string, b: string)
    requires a + b != []
    ensures Amount(a + [','] + b) == Amount(a + b)
  {
    RemoveOneComma(a, b);
  }

  lemma {:induction false} NoCommas(s: string)
    requires DigitString(s)
    ensures ReplaceAll(s, ",", []) == s
    decreases |s|
  {
    if s != [] {
      assert !StartsWith(s, ",") by { assert IsDigit(s[0]); }
      NoCommas(s[1..]);
      assert s == [s[0]] + s[1..];
    }
  }

  /** The digits of a whole number read back as that number. */
  lemma {:induction false} AmountOfDigits(n: nat)
    ensures Amount(DecimalString(n)) == n as real
  {
    NoCommas(DecimalString(n));
    ParseDecimalString(n);
  }

  // ----------------------------------------------------------- root totals

  /** The first root from `from` on named `name`, at any level. */
  function FirstNamed(roots: seq<Node>, name: string, from: nat): (i: Option<nat>)
    ensures i.Some? ==> from <= i.value < |roots| && Name(roots[i.value]) == name &&
                        forall j :: from <= j < i.value ==> Name(roots[j]) != name
    ensures i.None? ==> forall j :: from <= j < |roots| ==> Name(roots[j]) != name
    decreases |roots| - from
  {
    if from >= |roots| then None
    else if Name(roots[from]) == name then Some(from)
    else FirstNamed(roots, name, from + 1)
  }

  /** A level-0 root named `name`. */
  predicate TopNamed(n: Node, name: string) {
    n.level == 0 && Name(n) == name
  }

  /** The first level-0 root from `from` on named `name`. */
  function FirstTop(roots: seq<Node>, name: string, from: nat): (i: Option<nat>)
    ensures i.Some? ==> from <= i.value < |roots| && TopNamed(roots[i.value], name) &&
                        forall j :: from <= j < i.value ==> !TopNamed(roots[j], name)
    ensures i.None? ==> forall j :: from <= j < |roots| ==> !TopNamed(roots[j], name)
    decreases |roots| - from
  {
    if from >= |roots| then None
    else if TopNamed(roots[from], name) then Some(from)
    else FirstTop(roots, name, from + 1)
  }

  /** A root `TopSum` adds: at level 0 and not named `skip`. */
  predicate Counted(n: Node, skip: Option<string>) {
    n.level == 0 && skip != Some(Name(n))
  }

  /** The amounts of the counted roots before `j` (read without commas when `plain`). */
  function TopSum(roots: seq<Node>, j: nat, skip: Option<string>, plain: bool): real
    requires j <= |roots|
    decreases j
  {
    if j == 0 then 0.0
    else
      var n := roots[j - 1];
      TopSum(roots, j - 1, skip, plain) +
        (if Counted(n, skip) then (if plain then PlainAmount(n.fields.amount) else AmountOf(n)) else 0.0)
  }

  /** `_calculate_chokkoji_amount`: the level-0 roots before the first level-0 direct cost, 0 without one. */
  function DirectCostExpected(roots: seq<Node>): real {
    match FirstTop(roots, DirectCost, 0)
    case None => 0.0
    case Some(j) => TopSum(roots, j, None, false)
  }

  /**
   * `_calculate_junkoji_amount`: the first direct cost's amount, plus the
   * level-0 roots other than a direct cost before the first level-0 net cost.
   */
  function NetCostExpected(roots: seq<Node>): real {
    var direct := match FirstNamed(roots, DirectCost, 0) case None => 0.0 case Some(d) => AmountOf(roots[d]);
    match FirstTop(roots, NetCost, 0)
    case None => direct
    case Some(j) => direct + TopSum(roots, j, Some(DirectCost), false)
  }

  /** The amount of `n`'s first child named `name`, 0 without one. */
  function ChildAmount(n: Node, name: string): real {
    match FirstNamed(n.children, name, 0)
    case None => 0.0
    case Some(c) => AmountOf(n.children[c])
  }

  /** The amount of the first root named `name`, 0 without one. */
  function NamedAmount(roots: seq<Node>, name: string): real {
    match FirstNamed(roots, name, 0)
    case None => 0.0
    case Some(i) => AmountOf(roots[i])
  }

  /** The first root named `name` with the amount of its first child named `child` added. */
  function WithChild(roots: seq<Node>, name: string, child: string): real {
    match FirstNamed(roots, name, 0)
    case None => 0.0
    case Some(i) => AmountOf(roots[i]) + ChildAmount(roots[i], child)
  }

  /** `_calculate_children_sum`: the direct children's amounts, not their descendants'. */
  function ChildrenSum(ns: seq<Node>): real
    decreases |ns|
  {
    if ns == [] then 0.0 else ChildrenSum(ns[..|ns| - 1]) + AmountOf(ns[|ns| - 1])
  }

  /** What `_verify_amount_calculations` attaches to a level-0 root. */
  datatype Check = Check(isMatched: bool, expected: real, actual: real, difference: real)

  /** `_verify_amount_calculations` on root `i`: `None` for a root below level 0. */
  function RootCheck(roots: seq<Node>, i: nat): Option<Check>
    requires i < |roots|
  {
    var n := roots[i];
    if n.level != 0 then None
    else
      var actual := AmountOf(n);
      var name := Name(n);
      var expected :=
        if name == NetCost then NetCostExpected(roots)
        else if name == CostOfWork then WithChild(roots, NetCost, SiteManagement)
        else if name == ContractPrice then WithChild(roots, CostOfWork, GeneralManagement)
        else if name == Tax then actual
        else if name == GrandTotal then NamedAmount(roots, ContractPrice) + NamedAmount(roots, Tax)
        else if name == DirectCost then DirectCostExpected(roots)
        else if n.children == [] then actual
        else ChildrenSum(n.children);
      if name !in [NetCost, CostOfWork, ContractPrice, Tax, GrandTotal, DirectCost] && n.children == [] then
        Some(Check(true, actual, actual, 0.0))
      else
        Some(Check(Abs(expected - actual) <= Tolerance, expected, actual, actual - expected))
  }

  /**
   * Every level-0 root gets a check and no other root does; a check is
   * matched exactly when its difference is within the tolerance, the
   * difference is the actual amount less the expected one, and the tax line
   * and an ordinary childless root always match.
   */
  lemma {:induction false} RootCheckSpec(roots: seq<Node>, i: nat)
    requires i < |roots|
    ensures RootCheck(roots, i).Some? <==> roots[i].level == 0
    ensures RootCheck(roots, i).Some? ==>
              var c := RootCheck(roots, i).value;
              c.actual == AmountOf(roots[i]) && c.difference == c.actual - c.expected &&
              (c.isMatched <==> Abs(c.difference) <= Tolerance)
    ensures RootCheck(roots, i).Some? && (Name(roots[i]) == Tax || (roots[i].children == [] && Name(roots[i]) !in BusinessNames)) ==>
              RootCheck(roots, i).value.isMatched && RootCheck(roots, i).value.difference == 0.0
    ensures RootCheck(roots, i).Some? && roots[i].children != [] && Name(roots[i]) !in BusinessNames && Name(roots[i]) != Tax ==>
              RootCheck(roots, i).value.expected == ChildrenSum(roots[i].children)
  {
    if roots[i].level == 0 {
      var c := RootCheck(roots, i).value;
      assert Abs(c.expected - c.actual) == Abs(c.difference);
    }
  }

  /** The roots after the first level-0 direct cost do not change what it is checked against. */
  lemma {:induction false} DirectCostLooksBack(roots: seq<Node>, more: seq<Node>)
    requires FirstTop(roots, DirectCost, 0).Some?
    ensures DirectCostExpected(roots + more) == DirectCostExpected(roots)
  {
    var j := FirstTop(roots, DirectCost, 0).value;
    FirstTopPrefix(roots, more, DirectCost, 0);
    TopSumPrefix(roots, more, j, None, false);
  }

  lemma {:induction false} FirstTopPrefix(roots: seq<Node>, more: seq<Node>, name: string, from: nat)
    requires from <= |roots| && FirstTop(roots, name, from).Some?
    ensures FirstTop(roots + more, name, from) == FirstTop(roots, name, from)
    decreases |roots| - from
  {
    assert (roots + more)[from] == roots[from];
    if !TopNamed(roots[from], name) {
      FirstTopPrefix(roots, more, name, from + 1);
    }
  }

  lemma {:induction false} TopSumPrefix(roots: seq<Node>, more: seq<Node>, j: nat, skip: Option<string>, plain: bool)
    requires j <= |roots|
    ensures TopSum(roots + more, j, skip, plain) == TopSum(roots, j, skip, plain)
    decreases j
  {
    if j > 0 {
      assert (roots + more)[j - 1] == roots[j - 1];
      TopSumPrefix(roots, more, j - 1, skip, plain);
    }
  }

  /** Leaving out the roots named `skip` takes exactly their amounts off the sum. */
  lemma {:induction false} TopSumSkip(roots: seq<Node>, j: nat, d: nat)
    requires d < j <= |roots| && TopNamed(roots[d], DirectCost)
    requires forall k :: 0 <= k < j && k != d ==> !TopNamed(roots[k], DirectCost)
    ensures TopSum(roots, j, None, false) == TopSum(roots, j, Some(DirectCost), false) + AmountOf(roots[d])
    decreases j
  {
    if j - 1 > d {
      TopSumSkip(roots, j - 1, d);
    } else {
      TopSumSkipNone(roots, j - 1);
    }
  }

  lemma {:induction false} TopSumSkipNone(roots: seq<Node>, j: nat)
    requires j <= |roots|
    requires forall k :: 0 <= k < j ==> !TopNamed(roots[k], DirectCost)
    ensures TopSum(roots, j, None, false) == TopSum(roots, j, Some(DirectCost), false)
    decreases j
  {
    if j > 0 {
      TopSumSkipNone(roots, j - 1);
    }
  }

  /**
   * With one direct cost, at level 0 and before the net cost, the net cost
   * is checked against every level-0 root before it, the direct cost counted
   * once.
   */
  lemma {:induction false} NetCostCountsDirectOnce(roots: seq<Node>, d: nat, j: nat)
    requires FirstTop(roots, NetCost, 0) == Some(j) && d < j
    requires TopNamed(roots[d], DirectCost)
    requires forall k :: 0 <= k < |roots| && k != d ==> Name(roots[k]) != DirectCost
    ensures NetCostExpected(roots) == TopSum(roots, j, None, false)
  {
    assert FirstNamed(roots, DirectCost, 0) == Some(d);
    TopSumSkip(roots, j, d);
  }

  // ------------------------------------------------- verify_business_logic

  /** The last root named `name` before `upto`: the scan in `verify_business_logic` keeps overwriting. */
  function LastNamed(roots: seq<Node>, name: string, upto: nat): (i: Option<nat>)
    requires upto <= |roots|
    ensures i.Some? ==> i.value < upto && Name(roots[i.value]) == name &&
                        forall j :: i.value < j < upto ==> Name(roots[j]) != name
    ensures i.None? ==> forall j :: 0 <= j < upto ==> Name(roots[j]) != name
    decreases upto
  {
    if upto == 0 then None
    else if Name(roots[upto - 1]) == name then Some(upto - 1)
    else LastNamed(roots, name, upto - 1)
  }

  /** `sum(float(child['amount']) for child in ...)`; `None` where a `float` raises. */
  function StrictSum(ns: seq<Node>): Option<real>
    decreases |ns|
  {
    if ns == [] then Some(0.0)
    else
      match StrictSum(ns[..|ns| - 1])
      case None => None
      case Some(s) =>
        match ParseFloat(ns[|ns| - 1].fields.amount)
        case None => None
        case Some(a) => Some(s + a)
  }

  /** `float(actual)` compared with `expected`; `None` where it raises. */
  function Within(actual: string, expected: real): Option<bool> {
    match ParseFloat(actual)
    case None => None
    case Some(a) => Some(Abs(a - expected) <= Tolerance)
  }

  /** The net cost check: the last net cost against the first direct cost and the level-0 roots before the first level-0 net cost. */
  function NetCostLogic(roots: seq<Node>): Option<bool> {
    match LastNamed(roots, NetCost, |roots|)
    case None => Some(true)
    case Some(n) =>
      var direct := match FirstNamed(roots, DirectCost, 0) case None => 0.0 case Some(d) => PlainAmount(roots[d].fields.amount);
      var expected := match FirstTop(roots, NetCost, 0) case None => direct case Some(j) => direct + TopSum(roots, j, Some(DirectCost), true);
      Within(roots[n].fields.amount, expected)
  }

  /** The direct cost check: the last direct cost against the level-0 roots before the first level-0 one. */
  function DirectCostLogic(roots: seq<Node>): Option<bool> {
    match LastNamed(roots, DirectCost, |roots|)
    case None => Some(true)
    case Some(c) =>
      var expected := match FirstTop(roots, DirectCost, 0) case None => 0.0 case Some(j) => TopSum(roots, j, None, true);
      Within(roots[c].fields.amount, expected)
  }

  /** The cost of work check: the last cost of work against the last net cost plus all its children. */
  function CostOfWorkLogic(roots: seq<Node>): Option<bool> {
    match (LastNamed(roots, CostOfWork, |roots|), LastNamed(roots, NetCost, |roots|))
    case (Some(g), Some(n)) =>
      (match (ParseFloat(roots[n].fields.amount), StrictSum(roots[n].children))
       case (Some(a), Some(s)) => Within(roots[g].fields.amount, a + s)
       case _ => None)
    case _ => Some(true)
  }

  /** `verify_business_logic(data)['business_logic_verified']`; `None` where a `float` raises. */
  function BusinessLogic(roots: seq<Node>): (r: Option<bool>)
    ensures r.Some? <==> NetCostLogic(roots).Some? && DirectCostLogic(roots).Some? && CostOfWorkLogic(roots).Some?
    ensures r == Some(true) <==> NetCostLogic(roots) == DirectCostLogic(roots) == CostOfWorkLogic(roots) == Some(true)
  {
    match (NetCostLogic(roots), DirectCostLogic(roots), CostOfWorkLogic(roots))
    case (Some(a), Some(b), Some(c)) => Some(a && b && c)
    case _ => None
  }

  /** A sheet without any of the three business items passes the business check. */
  lemma {:induction false} NoBusinessItems(roots: seq<Node>)
    requires forall k :: 0 <= k < |roots| ==> Name(roots[k]) != NetCost && Name(roots[k]) != DirectCost && Name(roots[k]) != CostOfWork
    ensures BusinessLogic(roots) == Some(true)
  {
    var a := LastNamed(roots, NetCost, |roots|);
    var b := LastNamed(roots, DirectCost, |roots|);
    var c := LastNamed(roots, CostOfWork, |roots|);
    assert a.None? && b.None? && c.None?;
  }

  // ------------------------------------------------------ verify_recursive

  /** An entry of `mismatches` or `verified_items`; only a mismatch carries the `item_name` key. */
  datatype Record = Record(path: string, level: nat, amount: real, childrenSum: real, difference: real,
                           itemName: Option<string>)

  /** The record of an item at `path`: out of tolerance, it names the item. */
  function RecordFor(path: string, n: Node, amount: real, sum: real): (r: Record)
    ensures r.itemName.Some? <==> Abs(amount - sum) > Tolerance
  {
    Record(path, n.level, amount, sum, amount - sum, if Abs(amount - sum) <= Tolerance then None else Some(Name(n)))
  }

  /** The two lists `verify_recursive` appends to, in the order it appends. */
  datatype Tally = Tally(mismatches: seq<Record>, verified: seq<Record>)

  /** `f"{parent_path}/{name}" if parent_path else name` */
  function PathOf(parentPath: string, name: string): string {
    if parentPath == [] then name else parentPath + "/" + name
  }

  /** How an amount is read: `float`, with `None` where it raises. */
  type Reader = string -> Option<real>

  /**
   * `verify_item_recursively(item, parent_path)`: a leaf or a business item
   * adds nothing; otherwise the children are read and visited in order, then
   * the item's own record is added. `None` where `read` (`float`) raises,
   * which ends the whole verification.
   */
  function VerifyItem(n: Node, parentPath: string, t: Tally, read: Reader): Option<Tally>
    decreases n, 1
  {
    if n.children == [] || Name(n) in BusinessNames then Some(t)
    else
      var path := PathOf(parentPath, Name(n));
      match VerifyChildren(n.children, 0, path, t, 0.0, read)
      case None => None
      case Some((t', sum)) =>
        match read(n.fields.amount)
        case None => None
        case Some(a) =>
          var rec := RecordFor(path, n, a, sum);
          if Abs(a - sum) <= Tolerance then Some(Tally(t'.mismatches, t'.verified + [rec]))
          else Some(Tally(t'.mismatches + [rec], t'.verified))
  }

  /** The loop over the children from `i` on: `float(child['amount'])` added to `sum`, then the child visited. */
  function VerifyChildren(cs: seq<Node>, i: nat, path: string, t: Tally, sum: real, read: Reader): Option<(Tally, real)>
    requires i <= |cs|
    decreases cs, 0, |cs| - i
  {
    if i == |cs| then Some((t, sum))
    else
      match read(cs[i].fields.amount)
      case None => None
      case Some(a) =>
        match VerifyItem(cs[i], path, t, read)
        case None => None
        case Some(t') => VerifyChildren(cs, i + 1, path, t', sum + a, read)
  }

  /** `verify_recursive(data)`: every root from `i` on, with an empty parent path. */
  function VerifyAll(roots: seq<Node>, i: nat, t: Tally, read: Reader): Option<Tally>
    requires i <= |roots|
    decreases |roots| - i
  {
    if i == |roots| then Some(t)
    else
      match VerifyItem(roots[i], [], t, read)
      case None => None
      case Some(t') => VerifyAll(roots, i + 1, t', read)
  }

  /** A record's difference is its amount less its children's sum. */
  predicate Consistent(r: Record) {
    r.difference == r.amount - r.childrenSum
  }

  /** Mismatches are out of tolerance and verified records within it. */
  predicate Sorted(t: Tally) {
    (forall r :: r in t.mismatches ==> Consistent(r) && Abs(r.difference) > Tolerance) &&
    (forall r :: r in t.verified ==> Consistent(r) && Abs(r.difference) <= Tolerance)
  }

  /** The lists only grow: what was recorded stays, in front. */
  predicate Extends(t: Tally, t': Tally) {
    |t.mismatches| <= |t'.mismatches| && t'.mismatches[..|t.mismatches|] == t.mismatches &&
    |t.verified| <= |t'.verified| && t'.verified[..|t.verified|] == t.verified
  }

  lemma {:induction false} ExtendsTrans(a: Tally, b: Tally, c: Tally)
    requires Extends(a, b) && Extends(b, c)
    ensures Extends(a, c)
  {
    assert c.mismatches[..|a.mismatches|] == c.mismatches[..|b.mismatches|][..|a.mismatches|];
    assert c.verified[..|a.verified|] == c.verified[..|b.verified|][..|a.verified|];
  }

  /** Adding a record on the side its tolerance test picks keeps the tally sorted and extends it. */
  lemma {:induction false} AddRecord(t: Tally, rec: Record)
    requires Sorted(t) && Consistent(rec)
    ensures var t' := if Abs(rec.difference) <= Tolerance then Tally(t.mismatches, t.verified + [rec])
                      else Tally(t.mismatches + [rec], t.verified);
            Sorted(t') && Extends(t, t')
  {
  }

  /** Every record `verify_recursive` writes is consistent and on the side its tolerance test puts it. */
  lemma {:induction false} VerifyItemSorted(n: Node, parentPath: string, t: Tally, read: Reader)
    requires Sorted(t)
    ensures VerifyItem(n, parentPath, t, read).Some? ==>
              Sorted(VerifyItem(n, parentPath, t, read).value) && Extends(t, VerifyItem(n, parentPath, t, read).value)
    decreases n, 1
  {
    if !(n.children == [] || Name(n) in BusinessNames) {
      var path := PathOf(parentPath, Name(n));
      VerifyChildrenSorted(n.children, 0, path, t, 0.0, read);
      match VerifyChildren(n.children, 0, path, t, 0.0, read)
      case None =>
      case Some((t', sum)) =>
        match read(n.fields.amount)
        case None =>
        case Some(a) =>
          var rec := RecordFor(path, n, a, sum);
          AddRecord(t', rec);
          ExtendsTrans(t, t', VerifyItem(n, parentPath, t, read).value);
    }
  }

  lemma {:induction false} VerifyChildrenSorted(cs: seq<Node>, i: nat, path: string, t: Tally, sum: real, read: Reader)
    requires i <= |cs| && Sorted(t)
    ensures VerifyChildren(cs, i, path, t, sum, read).Some? ==>
              Sorted(VerifyChildren(cs, i, path, t, sum, read).value.0) &&
              Extends(t, VerifyChildren(cs, i, path, t, sum, read).value.0)
    decreases cs, 0, |cs| - i
  {
    if i < |cs| {
      match read(cs[i].fields.amount)
      case None =>
      case Some(a) =>
        VerifyItemSorted(cs[i], path, t, read);
        match VerifyItem(cs[i], path, t, read)
        case None =>
        case Some(t') =>
          VerifyChildrenSorted(cs, i + 1, path, t', sum + a, read);
          if VerifyChildren(cs, i + 1, path, t', sum + a, read).Some? {
            ExtendsTrans(t, t', VerifyChildren(cs, i + 1, path, t', sum + a, read).value.0);
          }
    } else {
      assert Extends(t, t);
    }
  }

  lemma {:induction false} VerifyAllSorted(roots: seq<Node>, i: nat, t: Tally, read: Reader)
    requires i <= |roots| && Sorted(t)
    ensures VerifyAll(roots, i, t, read).Some? ==> Sorted(VerifyAll(roots, i, t, read).value)
    decreases |roots| - i
  {
    if i < |roots| {
      VerifyItemSorted(roots[i], [], t, read);
      match VerifyItem(roots[i], [], t, read)
      case None =>
      case Some(t') => VerifyAllSorted(roots, i + 1, t', read);
    }
  }

  // --------------------------------------------------------- de-duplication

  /** `f"{path}_{level}"` */
  function Key(r: Record): string {
    r.path + "_" + DecimalString(r.level)
  }

  /** The characters of `p + "_" + d`. */
  lemma {:induction false} KeyCharAt(p: string, d: string, i: int)
    ensures 0 <= i < |p| ==> (p + "_" + d)[i] == p[i]
    ensures i == |p| ==> (p + "_" + d)[i] == '_'
    ensures |p| < i < |p| + 1 + |d| ==> (p + "_" + d)[i] == d[i - |p| - 1]
  {
  }

  lemma {:induction false} DigitNotUnderscore(d: string, k: int)
    ensures DigitString(d) && 0 <= k < |d| ==> d[k] != '_'
  {
  }

  /** A key splits at its last underscore: the digits after it have the same length either way. */
  lemma {:induction false} UnderscoreSplit(p1: string, d1: string, p2: string, d2: string)
    requires p1 + "_" + d1 == p2 + "_" + d2
    requires DigitString(d1) && DigitString(d2)
    ensures |d1| == |d2|
  {
    if |d1| < |d2| {
      KeyCharAt(p1, d1, |p1|);
      KeyCharAt(p2, d2, |p1|);
      DigitNotUnderscore(d2, |p1| - |p2| - 1);
      assert false;
    } else if |d2| < |d1| {
      KeyCharAt(p2, d2, |p2|);
      KeyCharAt(p1, d1, |p2|);
      DigitNotUnderscore(d1, |p2| - |p1| - 1);
      assert false;
    }
  }

  /** Digits hold no underscore, so the last underscore of a key ends its path. */
  lemma {:induction false} KeyInjective(a: Record, b: Record)
    requires Key(a) == Key(b)
    ensures a.path == b.path && a.level == b.level
  {
    var da := DecimalString(a.level);
    var db := DecimalString(b.level);
    var s := Key(a);
    UnderscoreSplit(a.path, da, b.path, db);
    assert da == s[|s| - |da|..] == db;
    assert a.path == s[..|a.path|] == b.path;
    NatValueOfDecimalString(a.level);
    NatValueOfDecimalString(b.level);
  }

  function Keys(rs: seq<Record>): set<string> {
    set r | r in rs :: Key(r)
  }

  /** The de-duplication loop from a set of keys already seen: the first record of each new key, in order. */
  function Dedup(rs: seq<Record>, seen: set<string>): (u: seq<Record>)
    ensures forall k :: 0 <= k < |u| ==> Key(u[k]) !in seen && u[k] in rs
    ensures forall a, b :: 0 <= a < b < |u| ==> Key(u[a]) != Key(u[b])
    decreases |rs|
  {
    if rs == [] then []
    else if Key(rs[0]) in seen then Dedup(rs[1..], seen)
    else [rs[0]] + Dedup(rs[1..], seen + {Key(rs[0])})
  }

  /** Every key not yet seen keeps exactly one record, the first with that key. */
  lemma {:induction false} DedupKeys(rs: seq<Record>, seen: set<string>)
    ensures Keys(Dedup(rs, seen)) == Keys(rs) - seen
    decreases |rs|
  {
    if rs != [] {
      var seen' := if Key(rs[0]) in seen then seen else seen + {Key(rs[0])};
      DedupKeys(rs[1..], seen');
      assert rs == [rs[0]] + rs[1..];
      assert Keys(rs) == {Key(rs[0])} + Keys(rs[1..]);
      if Key(rs[0]) !in seen {
        var u := Dedup(rs, seen);
        assert u == [rs[0]] + Dedup(rs[1..], seen');
        assert Keys(u) == {Key(rs[0])} + Keys(Dedup(rs[1..], seen'));
      }
    }
  }

  lemma {:induction false} DedupKeepsFirst(rs: seq<Record>, seen: set<string>, i: nat)
    requires i < |rs| && Key(rs[i]) !in seen
    requires forall j :: 0 <= j < i ==> Key(rs[j]) != Key(rs[i])
    ensures rs[i] in Dedup(rs, seen)
    decreases i
  {
    if i > 0 {
      var seen' := if Key(rs[0]) in seen then seen else seen + {Key(rs[0])};
      DedupKeepsFirst(rs[1..], seen', i - 1);
    }
  }

  /** The loop of `verify_excel_file` over `all_mismatches` with `seen_paths`. */
  method Deduplicate(all: seq<Record>) returns (unique: seq<Record>)
    ensures unique == Dedup(all, {})
  {
    var seen: set<string> := {};
    unique := [];
    for i := 0 to |all|
      invariant unique + Dedup(all[i..], seen) == Dedup(all, {})
    {
      assert all[i..] == [all[i]] + all[i + 1..];
      var key := Key(all[i]);
      if key !in seen {
        seen := seen + {key};
        unique := unique + [all[i]];
      }
    }
    assert all[|all|..] == [];
  }

  // -------------------------------------------------------- the whole file

  /** The roots whose business check failed, as mismatch records (path = name, children sum = expected). */
  function BusinessMismatches(roots: seq<Node>, i: nat): seq<Record>
    requires i <= |roots|
    decreases i
  {
    if i == 0 then []
    else
      BusinessMismatches(roots, i - 1) +
        match RootCheck(roots, i - 1)
        case Some(c) =>
          if !c.isMatched then [Record(Name(roots[i - 1]), roots[i - 1].level, c.actual, c.expected, c.difference, Some(Name(roots[i - 1])))] else []
        case None => []
  }

  /** The level-0 roots among the first `i`. */
  function CountTop(roots: seq<Node>, i: nat): (n: nat)
    requires i <= |roots|
    ensures n <= i
    decreases i
  {
    if i == 0 then 0 else CountTop(roots, i - 1) + (if roots[i - 1].level == 0 then 1 else 0)
  }

  /** `VerificationResult`, without the error message. */
  datatype Verification = Verification(totalItems: nat, verifiedItems: int, mismatchedItems: nat,
                                       mismatches: seq<Record>, businessLogicVerified: bool,
                                       extractionSuccessful: bool)

  /** What any exception inside `verify_excel_file` returns. */
  const Failed: Verification := Verification(0, 0, 0, [], false, false)

  /** `verify_excel_file` from the root items on. */
  function Summary(roots: seq<Node>): Verification {
    match (BusinessLogic(roots), VerifyAll(roots, 0, Tally([], []), ParseFloat))
    case (Some(ok), Some(t)) =>
      var unique := Dedup(t.mismatches + BusinessMismatches(roots, |roots|), {});
      var total := CountTop(roots, |roots|);
      Verification(total, total - |unique|, |unique|, unique, ok, true)
    case _ => Failed
  }

  /** `verify_excel_file(path, sheet)` on the sheet read from it. */
  function VerifyFile(sh: Sheet): Verification {
    match EV.NextHeader(sh, 0)
    case None => Failed
    case Some(h) =>
      var pos := ColumnPositions(sh, h);
      match Hierarchy(EV.Rows(sh, pos, h))
      case None => Failed
      case Some(f) => Summary(RootTrees(f))
  }

  /** `verify_excel_file` with the repaired build, which passes over the `None` slots of skipped levels. */
  function RepairedVerifyFile(sh: Sheet): Verification {
    match EV.NextHeader(sh, 0)
    case None => Failed
    case Some(h) => Summary(RootTrees(RepairedHierarchy(EV.Rows(sh, ColumnPositions(sh, h), h))))
  }

  /**
   * The repaired verification reports what the one as written reports on
   * every sheet whose build completes, and fails only where it fails.
   */
  lemma {:induction false} RepairedVerifyFileAgrees(sh: Sheet)
    ensures VerifyFile(sh).extractionSuccessful ==> RepairedVerifyFile(sh) == VerifyFile(sh)
    ensures !RepairedVerifyFile(sh).extractionSuccessful ==> RepairedVerifyFile(sh) == Failed
  {
    match EV.NextHeader(sh, 0)
    case None =>
    case Some(h) =>
      var rows := EV.Rows(sh, ColumnPositions(sh, h), h);
      SummaryCounts(RootTrees(RepairedHierarchy(rows)));
      if Hierarchy(rows).Some? {
        RepairedHierarchyAgrees(rows);
      }
  }

  /**
   * A successful summary counts each mismatched path and level once, with
   * the mismatches of both checks all reported, and splits the level-0
   * roots into verified and mismatched; a failed one reports nothing.
   */
  lemma {:induction false} SummaryCounts(roots: seq<Node>)
    ensures var v := Summary(roots);
            v.extractionSuccessful ==>
              v.verifiedItems + v.mismatchedItems == v.totalItems &&
              v.mismatchedItems == |v.mismatches| &&
              (forall a, b :: 0 <= a < b < |v.mismatches| ==> Key(v.mismatches[a]) != Key(v.mismatches[b])) &&
              Keys(v.mismatches) == Keys(VerifyAll(roots, 0, Tally([], []), ParseFloat).value.mismatches + BusinessMismatches(roots, |roots|))
    ensures !Summary(roots).extractionSuccessful ==> Summary(roots) == Failed
  {
    match (BusinessLogic(roots), VerifyAll(roots, 0, Tally([], []), ParseFloat))
    case (Some(ok), Some(t)) =>
      DedupKeys(t.mismatches + BusinessMismatches(roots, |roots|), {});
    case _ =>
  }

  /** A root at level `level` reading `amount` whose only child is `child`. */
  function OneChild(name: string, amount: string, level: nat, child: Node): Node {
    Node(EV.Fields(name, [], [], [], amount, []), level, [child])
  }

  lemma {:induction false} OneChildRecursive(name: string, amount: string, level: nat, child: Node, read: Reader, pa: real, ca: real)
    requires name !in BusinessNames && child.children == []
    requires read(amount) == Some(pa) && read(child.fields.amount) == Some(ca)
    ensures VerifyAll([OneChild(name, amount, level, child)], 0, Tally([], []), read) ==
              Some(if Abs(pa - ca) <= Tolerance then Tally([], [Record(name, level, pa, ca, pa - ca, None)])
                   else Tally([Record(name, level, pa, ca, pa - ca, Some(name))], []))
  {
    var root := OneChild(name, amount, level, child);
    var t0 := Tally([], []);
    assert PathOf([], name) == name;
    assert VerifyItem(child, name, t0, read) == Some(t0);
    assert VerifyChildren([child], 1, name, t0, ca, read) == Some((t0, ca));
    assert VerifyChildren(root.children, 0, name, t0, 0.0, read) == Some((t0, ca));
    var rec := RecordFor(name, root, pa, ca);
    assert t0.mismatches + [rec] == [rec] && t0.verified + [rec] == [rec];
    var t1 := VerifyItem(root, [], t0, read).value;
    assert VerifyAll([root], 1, t1, read) == Some(t1);
  }

  /**
   * `verified_items` is the level-0 count less every mismatch, nested ones
   * included, so it goes below zero: an indented root whose only child does
   * not add up gives -1.
   */
  lemma {:induction false} VerifiedCanBeNegative(name: string, amount: string, level: nat, child: Node, pa: real, ca: real)
    requires level > 0 && name !in BusinessNames && child.children == []
    requires ParseFloat(amount) == Some(pa) && ParseFloat(child.fields.amount) == Some(ca) && Abs(pa - ca) > Tolerance
    ensures Summary([OneChild(name, amount, level, child)]).extractionSuccessful
    ensures Summary([OneChild(name, amount, level, child)]).verifiedItems == -1
  {
    var roots := [OneChild(name, amount, level, child)];
    var rec := Record(name, level, pa, ca, pa - ca, Some(name));
    OneChildRecursive(name, amount, level, child, ParseFloat, pa, ca);
    NoBusinessItems(roots);
    assert RootCheck(roots, 0) == None;
    assert BusinessMismatches(roots, 1) == [] && CountTop(roots, 1) == 0;
    assert Dedup([rec] + [], {}) == [rec];
  }
}
