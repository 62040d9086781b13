/**
 * De-duplication that keeps the first appearance of each value, in the order
 * values first appear: the `if x not in out: out.append(x)` loops of the
 * extractors.
 */
module Distinct {
  /** The values of `xs`, each once, at the place it first appears. */
  function Dedup<T(==)>(xs: seq<T>): seq<T>
    decreases |xs|
  {
    if xs == [] then []
    else
      var d := Dedup(xs[..|xs| - 1]);
      if xs[|xs| - 1] in d then d else d + [xs[|xs| - 1]]
  }

  predicate NoDuplicates<T(==)>(xs: seq<T>) {
    forall i, j :: 0 <= i < j < |xs| ==> xs[i] != xs[j]
  }

  /** The result holds exactly the values of the input, and each only once. */
  lemma {:induction false} DedupSpec<T>(xs: seq<T>)
    ensures NoDuplicates(Dedup(xs))
    ensures forall x :: x in Dedup(xs) <==> x in xs
    decreases |xs|
  {
    if xs != [] {
      var init := xs[..|xs| - 1];
      DedupSpec(init);
      assert xs == init + [xs[|xs| - 1]];
    }
  }

  /** Reading more of the input only appends: what was collected from a prefix stays in front. */
  lemma {:induction false} DedupPrefix<T>(xs: seq<T>, k: nat)
    requires k <= |xs|
    ensures Dedup(xs[..k]) <= Dedup(xs)
    decreases |xs| - k
  {
    if k < |xs| {
      DedupPrefix(xs, k + 1);
      assert xs[..k + 1][..k] == xs[..k];
    } else {
      assert xs[..k] == xs;
    }
  }

  /** Without duplicates, no value is counted twice. */
  lemma {:induction false} NoDuplicatesCount<T>(xs: seq<T>, x: T)
    requires NoDuplicates(xs)
    ensures multiset(xs)[x] <= 1
    decreases |xs|
  {
    if xs != [] {
      var rest := xs[1..];
      assert xs == [xs[0]] + rest;
      assert NoDuplicates(rest) by {
        forall i, j | 0 <= i < j < |rest| ensures rest[i] != rest[j] {
          assert rest[i] == xs[i + 1] && rest[j] == xs[j + 1];
        }
      }
      NoDuplicatesCount(rest, x);
      assert xs[0] !in rest by {
        forall j | 0 <= j < |rest| ensures rest[j] != xs[0] {
          assert rest[j] == xs[j + 1];
        }
      }
    }
  }

  /** Two equal values at different places are counted twice. */
  lemma {:induction false} RepeatCount<T>(xs: seq<T>, i: nat, j: nat)
    requires i < j < |xs|
    ensures xs[i] == xs[j] ==> multiset(xs)[xs[j]] >= 2
  {
    if xs[i] == xs[j] {
      var front, back := xs[..j], xs[j..];
      assert xs == front + back;
      assert xs[i] == front[i] && xs[j] == back[0];
      assert multiset(xs)[xs[j]] == multiset(front)[xs[j]] + multiset(back)[xs[j]];
    }
  }

  /** A rearrangement of a sequence without duplicates has none either. */
  lemma {:induction false} NoDuplicatesPermutation<T>(a: seq<T>, b: seq<T>)
    requires NoDuplicates(a) && multiset(a) == multiset(b)
    ensures NoDuplicates(b)
  {
    forall i, j | 0 <= i < j < |b| ensures b[i] != b[j] {
      NoDuplicatesCount(a, b[j]);
      RepeatCount(b, i, j);
    }
  }
}
