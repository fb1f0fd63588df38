// What several models share: machine words, options, sums over a table of
// threads, and indices on a ring.

module Words {
  newtype uint8 = x: int | 0 <= x < 0x100
  newtype uint32 = x: int | 0 <= x < 0x1_0000_0000
}

module Wrappers {
  datatype Option<T> = None | Some(value: T)
}

/** Sum of a weight over a sequence. */
module Sums {

  function Sum<T>(xs: seq<T>, f: T -> nat): nat {
    if xs == [] then 0 else Sum(xs[..|xs| - 1], f) + f(xs[|xs| - 1])
  }

  lemma {:induction false} SumReplace<T>(xs: seq<T>, i: nat, x: T, f: T -> nat)
    requires i < |xs|
    ensures Sum(xs[i := x], f) + f(xs[i]) == Sum(xs, f) + f(x)
  {
    var xs' := xs[i := x];
    if i == |xs| - 1 {
      assert xs'[..|xs| - 1] == xs[..|xs| - 1];
    } else {
      assert xs'[..|xs| - 1] == xs[..|xs| - 1][i := x];
      SumReplace(xs[..|xs| - 1], i, x, f);
    }
  }

  lemma {:induction false} SumSame<T>(xs: seq<T>, xs': seq<T>, f: T -> nat)
    requires |xs| == |xs'| && forall k :: 0 <= k < |xs| ==> f(xs[k]) == f(xs'[k])
    ensures Sum(xs, f) == Sum(xs', f)
  {
    if xs != [] {
      SumSame(xs[..|xs| - 1], xs'[..|xs| - 1], f);
    }
  }

  lemma {:induction false} SumConstant<T>(xs: seq<T>, c: nat, f: T -> nat)
    requires forall i :: 0 <= i < |xs| ==> f(xs[i]) == c
    ensures Sum(xs, f) == c * |xs|
  {
    if xs != [] { SumConstant(xs[..|xs| - 1], c, f); }
  }

  lemma {:induction false} SumAtLeastOne<T>(xs: seq<T>, i: nat, f: T -> nat)
    requires i < |xs|
    ensures f(xs[i]) <= Sum(xs, f)
  {
    if i < |xs| - 1 { SumAtLeastOne(xs[..|xs| - 1], i, f); }
  }

  lemma {:induction false} SumAtLeast<T>(xs: seq<T>, i: nat, j: nat, f: T -> nat)
    requires i < j < |xs|
    ensures f(xs[i]) + f(xs[j]) <= Sum(xs, f)
  {
    if j == |xs| - 1 {
      SumAtLeastOne(xs[..j], i, f);
    } else {
      SumAtLeast(xs[..|xs| - 1], i, j, f);
    }
  }
}

/** An index that goes round a ring at most twice. */
module Rings {

  lemma WrapOnce(a: nat, n: nat)
    requires 1 <= n && a <= 2 * n
    ensures a % n == if a < n then a else if a < 2 * n then a - n else 0
  {
    if n <= a < 2 * n {
      assert a / n == 1;
    } else if a == 2 * n {
      assert a / n == 2;
    }
  }
}
