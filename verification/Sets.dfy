/** Sizes of finite sets. */
module Sets {
  ghost function Range(lo: int, n: nat): set<int> {
    if n == 0 then {} else Range(lo, n - 1) + {lo + n - 1}
  }

  lemma {:induction false} RangeIs(lo: int, n: nat)
    ensures |Range(lo, n)| == n && forall k :: k in Range(lo, n) <==> lo <= k < lo + n
    ensures Range(lo, n + 1) == Range(lo, n) + {lo + n}
  {
    if n > 0 { RangeIs(lo, n - 1); }
  }

  lemma {:induction false} SubsetSize<T>(a: set<T>, b: set<T>)
    requires a <= b
    ensures |a| <= |b|
  {
    if a != {} {
      var x :| x in a;
      SubsetSize(a - {x}, b - {x});
    }
  }

  // Fewer than n numbers leave one below n over.
  lemma {:induction false} Spare(used: set<int>, n: nat) returns (i: int)
    requires |used| < n
    ensures 0 <= i < n && i !in used
  {
    i := n - 1;
    if i in used { i := Spare(used - {n - 1}, n - 1); }
  }
}
