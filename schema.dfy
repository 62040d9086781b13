/**
 * The record types of `server/schemas/tender.py`: a line item of either
 * document, one comparison result and the comparison summary. A Python `dict`
 * keeps insertion order, which the parsers depend on, so the raw fields of an
 * item are an association list with distinct keys.
 */
module TenderSchema {
  import opened Wrappers

  /** A Python `dict` with string keys: its entries in insertion order. */
  type Dict<V> = seq<(string, V)>

  /** Ordered `Dict[str, str]`. */
  type Fields = Dict<string>

  predicate DistinctKeys<V>(f: Dict<V>) {
    forall i, j :: 0 <= i < j < |f| ==> f[i].0 != f[j].0
  }

  predicate HasKey<V>(f: Dict<V>, k: string) {
    exists i :: 0 <= i < |f| && f[i].0 == k
  }

  /** `f.get(k)` */
  function Get<V>(f: Dict<V>, k: string): (r: Option<V>)
    ensures r.Some? <==> HasKey(f, k)
    ensures r.Some? ==> (k, r.value) in f
    decreases |f|
  {
    if f == [] then None
    else if f[0].0 == k then Some(f[0].1)
    else
      HasKeyTail(f, k);
      Get(f[1..], k)
  }

  /** `f.get(k, '')` */
  function GetOrEmpty(f: Fields, k: string): string {
    Get(f, k).GetOr([])
  }

  /** `f[k] = v`: replaces the value in place when `k` is present, appends otherwise. */
  function Put<V>(f: Dict<V>, k: string, v: V): (r: Dict<V>)
    ensures |r| == |f| || |r| == |f| + 1
    ensures forall i :: 0 <= i < |f| ==> r[i].0 == f[i].0
    ensures forall i :: 0 <= i < |f| && f[i].0 != k ==> r[i] == f[i]
    ensures DistinctKeys(f) ==> forall i :: 0 <= i < |f| && f[i].0 == k ==> r[i] == (k, v)
    ensures HasKey(f, k) ==> |r| == |f|
    ensures !HasKey(f, k) ==> r == f + [(k, v)]
    decreases |f|
  {
    if f == [] then [(k, v)]
    else if f[0].0 == k then [(k, v)] + f[1..]
    else
      HasKeyTail(f, k);
      var t := Put(f[1..], k, v);
      var r := [f[0]] + t;
      assert forall i :: 1 <= i < |r| ==> r[i] == t[i - 1];
      r
  }

  /** Past a first entry with another key, `k` is present exactly when it is in the rest. */
  lemma {:induction false} HasKeyTail<V>(f: Dict<V>, k: string)
    requires f != [] && f[0].0 != k
    ensures HasKey(f, k) <==> HasKey(f[1..], k)
  {
    if HasKey(f, k) {
      var i :| 0 <= i < |f| && f[i].0 == k;
      assert f[1..][i - 1].0 == k;
    }
    if HasKey(f[1..], k) {
      var i :| 0 <= i < |f[1..]| && f[1..][i].0 == k;
      assert f[i + 1].0 == k;
    }
  }

  lemma {:induction false} DistinctTail<V>(f: Dict<V>)
    requires f != [] && DistinctKeys(f)
    ensures DistinctKeys(f[1..])
  {
    forall i, j | 0 <= i < j < |f[1..]| ensures f[1..][i].0 != f[1..][j].0 {
      assert f[1..][i] == f[i + 1] && f[1..][j] == f[j + 1];
    }
  }

  /** An entry whose key the rest lacks, put in front of entries with distinct keys. */
  lemma {:induction false} DistinctCons<V>(e: (string, V), t: Dict<V>)
    requires DistinctKeys(t) && forall j :: 0 <= j < |t| ==> t[j].0 != e.0
    ensures DistinctKeys([e] + t)
  {
    var r := [e] + t;
    forall i, j | 0 <= i < j < |r| ensures r[i].0 != r[j].0 {
      assert r[j] == t[j - 1];
      if i > 0 { assert r[i] == t[i - 1]; }
    }
  }

  /** Each entry after `f[k] = v` is `(k, v)` or the entry `f` had at that place. */
  lemma {:induction false} PutEntry<V>(f: Dict<V>, k: string, v: V, i: nat)
    requires i < |Put(f, k, v)|
    ensures Put(f, k, v)[i] == (k, v) || (i < |f| && Put(f, k, v)[i] == f[i])
    decreases |f|
  {
    if f == [] {
    } else if f[0].0 == k {
      assert Put(f, k, v) == [(k, v)] + f[1..];
    } else {
      var t := Put(f[1..], k, v);
      assert Put(f, k, v) == [f[0]] + t;
      if i > 0 {
        PutEntry(f[1..], k, v, i - 1);
        assert Put(f, k, v)[i] == t[i - 1];
      }
    }
  }

  /** After `f[k] = v`, `f[k]` is `v`, every other key keeps its value and the keys stay distinct. */
  lemma {:induction false} PutGet<V>(f: Dict<V>, k: string, v: V, k2: string)
    requires DistinctKeys(f)
    ensures DistinctKeys(Put(f, k, v))
    ensures Get(Put(f, k, v), k) == Some(v)
    ensures k2 != k ==> Get(Put(f, k, v), k2) == Get(f, k2)
    decreases |f|
  {
    if f != [] && f[0].0 != k {
      DistinctTail(f);
      PutGet(f[1..], k, v, k2);
      var t := Put(f[1..], k, v);
      assert Put(f, k, v) == [f[0]] + t;
      forall j | 0 <= j < |t| ensures t[j].0 != f[0].0 {
        if j < |f[1..]| {
          assert t[j].0 == f[1..][j].0 == f[j + 1].0;
        } else {
          assert t[j].0 == k;
        }
      }
      DistinctCons(f[0], t);
    } else if f != [] {
      var r := Put(f, k, v);
      assert r == [(k, v)] + f[1..];
      DistinctTail(f);
      forall j | 0 <= j < |f[1..]| ensures f[1..][j].0 != k {
        assert f[1..][j] == f[j + 1];
      }
      DistinctCons((k, v), f[1..]);
    }
  }

  /** `f[k] = v` leaves the value of every other key alone, distinct keys or not. */
  lemma {:induction false} PutOther<V>(f: Dict<V>, k: string, v: V, k2: string)
    requires k2 != k
    ensures Get(Put(f, k, v), k2) == Get(f, k2)
    decreases |f|
  {
    if f != [] {
      var r := Put(f, k, v);
      if f[0].0 == k {
        assert r[1..] == f[1..];
      } else {
        PutOther(f[1..], k, v, k2);
        assert r[1..] == Put(f[1..], k, v);
      }
    }
  }

  /** Setting a key the dictionary lacks makes it map to the new value. */
  lemma {:induction false} PutFresh<V>(f: Dict<V>, k: string, v: V)
    requires !HasKey(f, k)
    ensures Get(Put(f, k, v), k) == Some(v)
  {
    GetSnoc(f, k, v, k);
  }

  lemma {:induction false} GetAt<V>(f: Dict<V>, i: nat, k: string)
    requires i < |f| && f[i].0 == k
    requires forall j :: 0 <= j < i ==> f[j].0 != k
    ensures Get(f, k) == Some(f[i].1)
    decreases i
  {
    if i > 0 {
      GetAt(f[1..], i - 1, k);
    }
  }

  /** Looking a key up after appending one entry: earlier entries win (a `dict` keeps the first position of a key). */
  lemma {:induction false} GetSnoc<V>(f: Dict<V>, k: string, v: V, k2: string)
    ensures Get(f + [(k, v)], k2) == if HasKey(f, k2) then Get(f, k2) else if k == k2 then Some(v) else None
    decreases |f|
  {
    if f == [] {
      assert f + [(k, v)] == [(k, v)];
    } else {
      assert (f + [(k, v)])[1..] == f[1..] + [(k, v)];
      GetSnoc(f[1..], k, v, k2);
      if f[0].0 != k2 {
        HasKeyTail(f, k2);
      }
    }
  }

  datatype Source = PDF | Excel

  /**
   * `TenderItem`: the schema declares item_key, raw_fields, quantity and source;
   * the parsers also pass `unit` and `page_number`, so they are optional fields here.
   */
  datatype TenderItem = TenderItem(
    itemKey: string,
    rawFields: Fields,
    quantity: real,
    source: Source,
    unit: Option<string>,
    pageNumber: Option<int>)

  /**
   * `SubtableItem`: imported from `server/schemas/tender.py` by the extractors but not
   * declared there; its fields are the keyword arguments its callers pass.
   */
  datatype SubtableItem = SubtableItem(
    itemKey: string,
    rawFields: Fields,
    quantity: real,
    unit: Option<string>,
    source: Source,
    pageNumber: Option<int>,
    referenceNumber: Option<string>,
    sheetName: Option<string>,
    tableTitle: Option<string>)

  /** The four literal values `ComparisonResult.status` admits. */
  datatype Status = OK | QuantityMismatch | Missing | Extra

  datatype ComparisonResult = ComparisonResult(
    status: Status,
    pdfItem: Option<TenderItem>,
    excelItem: Option<TenderItem>,
    matchConfidence: real,
    quantityDifference: Option<real>)

  datatype ComparisonSummary = ComparisonSummary(
    totalItems: int,
    matchedItems: int,
    quantityMismatches: int,
    missingItems: int,
    extraItems: int,
    results: seq<ComparisonResult>)

  /** `match_confidence` is documented as a value in [0, 1]. */
  predicate ConfidenceInRange(r: ComparisonResult) {
    0.0 <= r.matchConfidence <= 1.0
  }

  /** Number of results with the given status (`sum(1 for r in results if r.status == s)`). */
  function CountStatus(results: seq<ComparisonResult>, s: Status): (n: nat)
    ensures n <= |results|
    decreases |results|
  {
    if results == [] then 0
    else (if results[0].status == s then 1 else 0) + CountStatus(results[1..], s)
  }

  /** Every result has exactly one of the four statuses, so the four counts add up to the length. */
  lemma {:induction false} CountsPartition(results: seq<ComparisonResult>)
    ensures CountStatus(results, OK) + CountStatus(results, QuantityMismatch)
          + CountStatus(results, Missing) + CountStatus(results, Extra) == |results|
    decreases |results|
  {
    if results != [] { CountsPartition(results[1..]); }
  }

  lemma {:induction false} CountStatusConcat(a: seq<ComparisonResult>, b: seq<ComparisonResult>, s: Status)
    ensures CountStatus(a + b, s) == CountStatus(a, s) + CountStatus(b, s)
    decreases |a|
  {
    if a == [] {
      assert a + b == b;
    } else {
      assert (a + b)[1..] == a[1..] + b;
      CountStatusConcat(a[1..], b, s);
    }
  }
}
