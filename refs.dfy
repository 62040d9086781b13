/**
 * Sub-table reference names `内N号` ("breakdown sheet N"), shared by every
 * extractor that numbers or looks up sub-tables.
 */
module RefNames {
  import opened Wrappers
  import opened Text
  import opened Numbers

  /** `f"内{n}号"` */
  function RefName(n: nat): (r: string)
    ensures |r| >= 3 && r[0] == '内' && r[|r| - 1] == '号'
  {
    "内" + DecimalString(n) + "号"
  }

  /** The digits between 内 and 号 of a text that is exactly one reference name. */
  function RefDigits(s: string): Option<string> {
    if |s| >= 3 && s[0] == '内' && s[|s| - 1] == '号' && DigitString(s[1..|s| - 1]) then Some(s[1..|s| - 1])
    else None
  }

  /** The number a reference name carries: `int(m.group(1))` for a full match of `内(\d+)号`. */
  function RefNum(s: string): (r: Option<nat>)
    ensures r.Some? <==> RefDigits(s).Some?
  {
    match RefDigits(s)
    case Some(ds) => Some(NatValue(ds))
    case None => None
  }

  /** Reading a generated reference name gives back its number. */
  lemma {:induction false} RefNumName(n: nat)
    ensures RefNum(RefName(n)) == Some(n)
  {
    var d := DecimalString(n);
    var r := RefName(n);
    assert r[1..|r| - 1] == d;
    NatValueOfDecimalString(n);
  }

  /** Distinct numbers give distinct reference names. */
  lemma {:induction false} RefNameInjective(m: nat, n: nat)
    requires RefName(m) == RefName(n)
    ensures m == n
  {
    RefNumName(m);
    RefNumName(n);
  }

  /** The `table_title` dict a sub-table extractor attaches: `item_name`, `unit`, `unit_quantity`. */
  datatype TitleItems = TitleItems(itemName: string, unit: string, unitQuantity: string)

  /** Which marker a title cell carries: 単位 (but not 単位数量), or 単位数量. */
  datatype Marker = UnitMark | QuantityMark

  predicate Marks(mk: Marker, cell: string) {
    match mk
    case UnitMark => Contains(cell, "単位") && !Contains(cell, "単位数量")
    case QuantityMark => Contains(cell, "単位数量")
  }

  /** The index of the last cell carrying the marker, or -1. */
  function LastMarked(cells: seq<string>, mk: Marker): (p: int)
    ensures -1 <= p < |cells|
    ensures p >= 0 ==> Marks(mk, cells[p])
    ensures forall k :: p < k < |cells| ==> !Marks(mk, cells[k])
    decreases |cells|
  {
    if cells == [] then -1
    else if Marks(mk, cells[|cells| - 1]) then |cells| - 1
    else
      var p := LastMarked(cells[..|cells| - 1], mk);
      assert forall k :: 0 <= k < |cells| - 1 ==> cells[..|cells| - 1][k] == cells[k];
      p
  }

  /** The loop over the filled cells that records where 単位 and 単位数量 were last seen. */
  method FindUnitPositions(cells: seq<string>) returns (unitPos: int, qtyPos: int)
    ensures unitPos == LastMarked(cells, UnitMark)
    ensures qtyPos == LastMarked(cells, QuantityMark)
  {
    unitPos, qtyPos := -1, -1;
    var i := 0;
    while i < |cells|
      invariant 0 <= i <= |cells|
      invariant unitPos == LastMarked(cells[..i], UnitMark)
      invariant qtyPos == LastMarked(cells[..i], QuantityMark)
    {
      assert cells[..i + 1][..i] == cells[..i];
      var cell := cells[i];
      if Contains(cell, "単位") && !Contains(cell, "単位数量") {
        unitPos := i;
      } else if Contains(cell, "単位数量") {
        qtyPos := i;
      }
      i := i + 1;
    }
    assert cells[..i] == cells;
  }
}
