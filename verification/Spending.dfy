/** Filling a set of places out of a stock: what it takes, and when the stock is enough. */
module Spending {
  import opened Sets

  // f free places are enough for the members of want that are not among k.
  ghost predicate Enough<T(!new)>(f: int, want: set<T>, k: set<T>) { f >= |want - k| }

  /** The members of want were provided for, each out of f free places, or f were too few. */
  ghost predicate Spent<T(!new)>(k: set<T>, f: int, k': set<T>, f': int, want: set<T>, ok: bool) {
    if ok then k' == k + want && f' == f - |want - k| else !Enough(f, want, k)
  }

  lemma SpentNone<T(!new)>(k: set<T>, f: int)
    ensures Spent(k, f, k, f, {}, true)
  {
    assert {} - k == {};
  }

  // One place provides for one member that has none yet.
  lemma SpentOne<T(!new)>(k: set<T>, f: nat, x: T)
    ensures x in k ==> Spent(k, f, k, f, {x}, true)
    ensures x !in k && f > 0 ==> Spent(k, f, k + {x}, f - 1, {x}, true)
    ensures x !in k && f == 0 ==> forall k', f' :: Spent(k, f, k', f', {x}, false)
  {
    assert {x} - k == if x in k then {} else {x};
    if x in k { assert k + {x} == k; }
  }

  lemma SpentTwice<T(!new)>(k: set<T>, f: int, k1: set<T>, f1: int, k2: set<T>, f2: int, a: set<T>, b: set<T>,
      ok: bool)
    requires Spent(k, f, k1, f1, a, true) && Spent(k1, f1, k2, f2, b, ok)
    ensures Spent(k, f, k2, f2, a + b, ok)
  {
    assert (a + b) - k == (a - k) + (b - k1);
    assert (a - k) * (b - k1) == {};
  }

  // What was enough for a is enough for b too exactly if what is left is.
  lemma EnoughTwice<T(!new)>(k: set<T>, f: int, k1: set<T>, f1: int, a: set<T>, b: set<T>)
    requires Spent(k, f, k1, f1, a, true)
    ensures Enough(f1, b, k1) <==> Enough(f, a + b, k)
  {
    assert (a + b) - k == (a - k) + (b - k1);
    assert (a - k) * (b - k1) == {};
  }

  // What is too little for some is too little for more.
  lemma TooFew<T(!new)>(k: set<T>, f: int, a: set<T>, b: set<T>)
    requires !Enough(f, a, k) && a <= b
    ensures !Enough(f, b, k)
  {
    SubsetSize(a - k, b - k);
  }

  lemma Short<T(!new)>(k: set<T>, f: int, want: set<T>)
    requires !Enough(f, want, k)
    ensures forall k', f' :: Spent(k, f, k', f', want, false)
  {
  }

  lemma StillShort<T(!new)>(k: set<T>, f: int, k': set<T>, f': int, want: set<T>)
    requires Spent(k, f, k', f', want, false)
    ensures forall k1, f1 :: Spent(k, f, k1, f1, want, false)
  {
  }

  lemma EnoughSpent<T(!new)>(k: set<T>, f: int, k': set<T>, f': nat, want: set<T>)
    requires Spent(k, f, k', f', want, true)
    ensures Enough(f, want, k)
  {
  }

  lemma TooFewNow<T(!new)>(k: set<T>, f: int, k': set<T>, f': int, a: set<T>, b: set<T>)
    requires Spent(k, f, k', f', a, false) && a <= b
    ensures !Enough(f, b, k)
  {
    TooFew(k, f, a, b);
  }
}
