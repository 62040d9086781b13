/** Optional values, used for Python's `None` returns, and a sequence fact shared by the loops. */
module Wrappers {

  datatype Option<+T> = None | Some(value: T) {
    /** `value if value is not None else default` */
    function GetOr(default: T): T {
      match this
      case Some(v) => v
      case None => default
    }
  }

  /** Concatenation is associative (stated once so that loop proofs need not rediscover it). */
  lemma {:induction false} ConcatAssoc<T>(a: seq<T>, b: seq<T>, c: seq<T>)
    ensures a + (b + c) == (a + b) + c
  {
  }

  /** The empty sequence is a left unit of concatenation: the start of every accumulating loop. */
  lemma {:induction false} EmptyConcat<T>(a: seq<T>)
    ensures [] + a == a
  {
  }

  /** Moving the front `xs` of what is left onto what is done keeps the whole. */
  lemma {:induction false} MoveFront<T>(done: seq<T>, left: seq<T>, xs: seq<T>, rest: seq<T>, whole: seq<T>)
    requires done + left == whole && left == xs + rest
    ensures (done + xs) + rest == whole
  {
    ConcatAssoc(done, xs, rest);
  }
}
