/** The heap allocator of user programs (user/umalloc.c, after section 8.7 of The C
    Programming Language).  Addresses count header-sized units. */
module Umalloc {
  import opened Options
  import opened Sets

  const UNIT: nat := 16              // sizeof(Header)
  const MORE: nat := 4096            // fewest units to ask sbrk for

  // Sizes in the headers; the free blocks from base up; live blocks; which block a unit is in.
  datatype Heap = Heap(size: map<int, int>, ring: seq<int>, live: map<int, int>, home: map<int, int>)

  // a heads a block of its own units.
  ghost predicate Owns(h: Heap, a: int) {
    a in h.size && h.size[a] > 0 && forall u :: a <= u < a + h.size[a] ==> u in h.home && h.home[u] == a
  }

  predicate IsBlock(h: Heap, base: int, a: int) { a in h.live || (a in h.ring && a != base) }

  predicate Inside(h: Heap, u: int, a: int) { a in h.size && a <= u < a + h.size[a] }

  // Every unit is in exactly one block, free or live.
  ghost predicate Tiles(h: Heap, base: int) {
    && (forall a :: IsBlock(h, base, a) ==> Owns(h, a) && a > base)
    && (forall b :: b in h.live ==> b in h.size && h.size[b] == h.live[b] && b !in h.ring)
    && (forall u :: u in h.home ==> u > base && IsBlock(h, base, h.home[u]) && Inside(h, u, h.home[u]))
  }

  lemma Retiled(h: Heap, base: int)
    requires forall a :: IsBlock(h, base, a) ==> Owns(h, a) && a > base
    requires forall b :: b in h.live ==> b in h.size && h.size[b] == h.live[b] && b !in h.ring
    requires forall u :: u in h.home ==> u > base && IsBlock(h, base, h.home[u]) && Inside(h, u, h.home[u])
    ensures Tiles(h, base)
  {
  }

  lemma LiveSize(h: Heap, base: int, b: int)
    requires Tiles(h, base) && b in h.live
    ensures b in h.size && h.size[b] == h.live[b] && b !in h.ring && b > base && IsBlock(h, base, b)
  {
    assert IsBlock(h, base, b);
  }

  // The free list goes up from base.
  ghost predicate Rising(h: Heap, base: int) {
    && |h.ring| > 0 && h.ring[0] == base && base in h.size && h.size[base] == 0
    && forall i, j :: 0 <= i < j < |h.ring| ==> h.ring[i] < h.ring[j]
  }

  // No free block ends where the next begins.
  ghost predicate Gaps(h: Heap) { forall i :: 1 <= i < |h.ring| ==> GapAt(h, i) }

  predicate GapAt(h: Heap, i: nat) {
    i + 1 < |h.ring| && h.ring[i] in h.size ==> h.ring[i] + h.size[h.ring[i]] != h.ring[i + 1]
  }

  ghost predicate Good(h: Heap, base: int) { Rising(h, base) && Tiles(h, base) && Gaps(h) }

  // Units from lo up to hi move to block a.
  function Moved(home: map<int, int>, lo: int, hi: int, a: int): map<int, int> {
    map u | u in home :: if lo <= u < hi then a else home[u]
  }

  // A free block that fits exactly becomes live.
  function Took(h: Heap, i: nat): Heap
    requires i < |h.ring| && h.ring[i] in h.size
  {
    h.(ring := h.ring[..i] + h.ring[i + 1..], live := h.live[h.ring[i] := h.size[h.ring[i]]])
  }

  lemma Without(s: seq<int>, i: nat)
    requires i < |s| && forall j, k :: 0 <= j < k < |s| ==> s[j] < s[k]
    ensures forall x :: x in s[..i] + s[i + 1..] <==> x in s && x != s[i]
  {
    var t := s[..i] + s[i + 1..];
    forall x | x in s && x != s[i] ensures x in t {
      var k :| 0 <= k < |s| && s[k] == x;
      assert t[if k < i then k else k - 1] == x;
    }
    forall x | x in t ensures x in s && x != s[i] {
      var k :| 0 <= k < |t| && t[k] == x;
      assert x == s[if k < i then k else k + 1];
    }
  }

  lemma InRing(h: Heap, base: int, i: nat)
    requires Rising(h, base) && Tiles(h, base) && 1 <= i < |h.ring|
    ensures IsBlock(h, base, h.ring[i]) && Owns(h, h.ring[i])
  {
    assert h.ring[0] < h.ring[i];
    assert h.ring[i] in h.ring;
  }

  // Two blocks share no unit.
  lemma Apart(h: Heap, base: int, a: int, b: int, u: int)
    requires Tiles(h, base) && IsBlock(h, base, a) && IsBlock(h, base, b) && Inside(h, u, a) && Inside(h, u, b)
    ensures a == b
  {
    assert Owns(h, a) && Owns(h, b);
    assert h.home[u] == a && h.home[u] == b;
  }

  lemma TookGood(h: Heap, base: int, i: nat)
    requires Good(h, base) && 1 <= i < |h.ring|
    ensures h.ring[i] in h.size && Good(Took(h, i), base)
  {
    InRing(h, base, i);
    var h' := Took(h, i);
    Without(h.ring, i);
    forall a ensures IsBlock(h', base, a) <==> IsBlock(h, base, a) { }
    forall a | IsBlock(h', base, a) ensures Owns(h', a) && a > base { assert Owns(h, a); }
    TookGaps(h, base, i);
  }

  // Blocks do not overlap.
  lemma Below(h: Heap, base: int, i: nat, j: nat)
    requires Rising(h, base) && Tiles(h, base) && 1 <= i < j < |h.ring|
    ensures h.ring[i] in h.size && h.ring[i] + h.size[h.ring[i]] <= h.ring[j]
  {
    InRing(h, base, i);
    InRing(h, base, j);
    if h.ring[j] < h.ring[i] + h.size[h.ring[i]] { Apart(h, base, h.ring[i], h.ring[j], h.ring[j]); }
  }

  lemma TookGaps(h: Heap, base: int, i: nat)
    requires Good(h, base) && 1 <= i < |h.ring| && h.ring[i] in h.size
    ensures Gaps(Took(h, i))
  {
    var h' := Took(h, i);
    forall j | 1 <= j < |h'.ring| ensures GapAt(h', j) {
      if j + 1 == i { Below(h, base, i - 1, i); } else { assert GapAt(h, if j < i then j else j + 1); }
    }
  }

  // The tail end of a larger free block becomes live.
  function Split(h: Heap, i: nat, n: nat): Heap
    requires i < |h.ring| && h.ring[i] in h.size
  {
    var a, m := h.ring[i], h.size[h.ring[i]];
    var b := a + (m - n);
    h.(size := h.size[a := m - n][b := n], live := h.live[b := n], home := Moved(h.home, b, a + m, b))
  }

  lemma SplitBlock(h: Heap, base: int, i: nat, n: nat, x: int)
    requires Rising(h, base) && Tiles(h, base) && 1 <= i < |h.ring| && h.ring[i] in h.size && 0 < n < h.size[h.ring[i]]
    requires IsBlock(h, base, x) || x == h.ring[i] + (h.size[h.ring[i]] - n)
    ensures Owns(Split(h, i, n), x) && x > base
  {
    var a, h' := h.ring[i], Split(h, i, n);
    InRing(h, base, i);
    if x != a && x != a + (h.size[a] - n) {
      assert Owns(h, x);
      forall u | x <= u < x + h'.size[x] ensures u in h'.home && h'.home[u] == x {
        if Inside(h, u, a) { Apart(h, base, a, x, u); }
      }
    }
  }

  lemma SplitHouse(h: Heap, base: int, i: nat, n: nat, u: int)
    requires Rising(h, base) && Tiles(h, base) && 1 <= i < |h.ring| && h.ring[i] in h.size && 0 < n < h.size[h.ring[i]]
      && u in h.home
    ensures
      var h' := Split(h, i, n);
      u in h'.home && u > base && IsBlock(h', base, h'.home[u])
      && Inside(h', u, h'.home[u])
  {
    InRing(h, base, i);
    assert IsBlock(h, base, h.home[u]) && Inside(h, u, h.home[u]);
    NewBlock(h, base, i, n);
  }

  lemma NewBlock(h: Heap, base: int, i: nat, n: nat)
    requires Rising(h, base) && Tiles(h, base) && 1 <= i < |h.ring| && h.ring[i] in h.size && 0 < n < h.size[h.ring[i]]
    ensures var b := h.ring[i] + (h.size[h.ring[i]] - n); !IsBlock(h, base, b) && b !in h.ring && b in h.home
  {
    var a := h.ring[i];
    var b := a + (h.size[a] - n);
    InRing(h, base, i);
    if IsBlock(h, base, b) { assert Owns(h, b); Apart(h, base, a, b, b); }
  }

  lemma SplitGood(h: Heap, base: int, i: nat, n: nat)
    requires Good(h, base) && 1 <= i < |h.ring| && n > 0 && h.ring[i] in h.size && h.size[h.ring[i]] > n
    ensures Good(Split(h, i, n), base) && h.ring[i] + (h.size[h.ring[i]] - n) !in h.live
  {
    hide Tiles, Owns, Inside, Moved, Gaps;
    var a, m := h.ring[i], h.size[h.ring[i]];
    var b, h' := a + (m - n), Split(h, i, n);
    NewBlock(h, base, i, n);
    forall x | IsBlock(h', base, x) ensures Owns(h', x) && x > base { SplitBlock(h, base, i, n, x); }
    forall x | x in h'.live ensures x in h'.size && h'.size[x] == h'.live[x] && x !in h'.ring {
      if x != b { LiveSize(h, base, x); }
    }
    forall u | u in h'.home ensures u > base && IsBlock(h', base, h'.home[u]) && Inside(h', u, h'.home[u]) {
      MovedKeys(h.home, b, a + m, b);
      SplitHouse(h, base, i, n, u);
    }
    Retiled(h', base);
    SplitGaps(h, base, i, n);
  }

  lemma SplitGaps(h: Heap, base: int, i: nat, n: nat)
    requires Good(h, base) && 1 <= i < |h.ring| && n > 0 && h.ring[i] in h.size && h.size[h.ring[i]] > n
    requires !IsBlock(h, base, h.ring[i] + (h.size[h.ring[i]] - n))
    ensures Gaps(Split(h, i, n))
  {
    var h' := Split(h, i, n);
    forall j | 1 <= j < |h'.ring| ensures GapAt(h', j) {
      assert GapAt(h, j);
      InRing(h, base, j);
      if j == i && i + 1 < |h.ring| { Below(h, base, i, i + 1); }
    }
  }

  // A live block joins the free list after ring[k].
  function Released(h: Heap, b: int, k: nat): Heap
    requires k < |h.ring|
  {
    h.(ring := h.ring[..k + 1] + [b] + h.ring[k + 1..], live := h.live - {b})
  }

  ghost predicate Before(h: Heap, b: int, k: nat) {
    k < |h.ring| && h.ring[k] < b && (k + 1 < |h.ring| ==> b < h.ring[k + 1])
  }

  lemma With(s: seq<int>, b: int, k: nat)
    requires k < |s|
    ensures forall x :: x in s[..k + 1] + [b] + s[k + 1..] <==> x in s || x == b
  {
    var t := s[..k + 1] + [b] + s[k + 1..];
    forall x | x in s ensures x in t {
      var j :| 0 <= j < |s| && s[j] == x;
      assert t[if j <= k then j else j + 1] == x;
    }
    assert t[k + 1] == b;
  }

  lemma ReleasedTiles(h: Heap, base: int, b: int, k: nat)
    requires Rising(h, base) && Tiles(h, base) && b in h.live && Before(h, b, k)
    ensures Rising(Released(h, b, k), base) && Tiles(Released(h, b, k), base)
  {
    var h' := Released(h, b, k);
    With(h.ring, b, k);
    assert IsBlock(h, base, b);
    forall a ensures IsBlock(h', base, a) <==> IsBlock(h, base, a) { }
    forall a | IsBlock(h', base, a) ensures Owns(h', a) && a > base { assert Owns(h, a); }
    RisingWith(h.ring, b, k);
  }

  lemma RisingWith(s: seq<int>, b: int, k: nat)
    requires k < |s| && s[k] < b && (k + 1 < |s| ==> b < s[k + 1]) && forall i, j :: 0 <= i < j < |s| ==> s[i] < s[j]
    ensures var t := s[..k + 1] + [b] + s[k + 1..]; forall i, j :: 0 <= i < j < |t| ==> t[i] < t[j]
  {
  }

  // Free block i swallows the next.
  function Merged(h: Heap, i: nat): Heap
    requires i + 1 < |h.ring| && h.ring[i] in h.size && h.ring[i + 1] in h.size
  {
    var a, q := h.ring[i], h.ring[i + 1];
    h.(size := h.size[a := h.size[a] + h.size[q]], ring := h.ring[..i + 1] + h.ring[i + 2..],
       home := Moved(h.home, q, q + h.size[q], a))
  }

  lemma MergedBlock(h: Heap, base: int, i: nat, x: int)
    requires Rising(h, base) && Tiles(h, base) && 1 <= i && i + 1 < |h.ring| && h.ring[i] in h.size
      && h.ring[i + 1] in h.size
    requires h.ring[i] + h.size[h.ring[i]] == h.ring[i + 1] && x != h.ring[i + 1] && IsBlock(h, base, x)
    ensures Owns(Merged(h, i), x) && x > base
  {
    var q, h' := h.ring[i + 1], Merged(h, i);
    InRing(h, base, i);
    InRing(h, base, i + 1);
    assert Owns(h, x);
    if x != h.ring[i] {
      forall u | x <= u < x + h'.size[x] ensures u in h'.home && h'.home[u] == x {
        if Inside(h, u, q) { Apart(h, base, q, x, u); }
      }
    }
  }

  lemma MergedTiles(h: Heap, base: int, i: nat)
    requires Rising(h, base) && Tiles(h, base) && 1 <= i && i + 1 < |h.ring| && h.ring[i] in h.size
      && h.ring[i + 1] in h.size
    requires h.ring[i] + h.size[h.ring[i]] == h.ring[i + 1]
    ensures Rising(Merged(h, i), base) && Tiles(Merged(h, i), base)
  {
    hide Tiles, Owns, Inside, Moved;
    var a, q, h' := h.ring[i], h.ring[i + 1], Merged(h, i);
    Without(h.ring, i + 1);
    forall x | IsBlock(h', base, x) ensures Owns(h', x) && x > base {
      if x in h.live { LiveSize(h, base, x); }
      MergedBlock(h, base, i, x);
    }
    forall b | b in h'.live ensures b in h'.size && h'.size[b] == h'.live[b] && b !in h'.ring { LiveSize(h, base, b); }
    forall u | u in h'.home ensures u > base && IsBlock(h', base, h'.home[u]) && Inside(h', u, h'.home[u]) {
      MovedKeys(h.home, q, q + h.size[q], a);
      MergedHouse(h, base, i, u);
    }
    Retiled(h', base);
  }

  lemma MovedKeys(home: map<int, int>, lo: int, hi: int, a: int)
    ensures Moved(home, lo, hi, a).Keys == home.Keys
  {
  }

  lemma MergedHouse(h: Heap, base: int, i: nat, u: int)
    requires Rising(h, base) && Tiles(h, base) && 1 <= i && i + 1 < |h.ring| && h.ring[i] in h.size
      && h.ring[i + 1] in h.size
    requires h.ring[i] + h.size[h.ring[i]] == h.ring[i + 1] && u in h.home
    ensures var h' := Merged(h, i); u > base && IsBlock(h', base, h'.home[u]) && Inside(h', u, h'.home[u])
  {
    InRing(h, base, i);
    InRing(h, base, i + 1);
    Without(h.ring, i + 1);
    assert IsBlock(h, base, h.home[u]) && Inside(h, u, h.home[u]);
  }

  lemma ReleasedGaps(h: Heap, b: int, k: nat, j: nat)
    requires Gaps(h) && k < |h.ring| && 1 <= j < |h.ring| + 1 && j != k && j != k + 1
    ensures GapAt(Released(h, b, k), j)
  {
    assert GapAt(h, if j < k then j else j - 1);
  }

  lemma MergedGap(h: Heap, i: nat, j: nat)
    requires i + 1 < |h.ring| && h.ring[i] in h.size && h.ring[i + 1] in h.size
      && h.ring[i] + h.size[h.ring[i]] == h.ring[i + 1]
    requires j < |h.ring| - 1 && GapAt(h, if j < i then j else j + 1)
      && (forall a, b :: 0 <= a < b < |h.ring| ==> h.ring[a] != h.ring[b])
    ensures GapAt(Merged(h, i), j)
  {
  }

  // sbrk hands out new units above all others, as one live block.
  function Grown(h: Heap, p: int, n: nat): Heap {
    h.(size := h.size[p := n], live := h.live[p := n], home := h.home + Fresh(p, n))
  }

  function Fresh(p: int, n: nat): map<int, int> {
    if n == 0 then map[] else Fresh(p, n - 1)[p + n - 1 := p]
  }

  lemma {:induction false} FreshIs(p: int, n: nat)
    ensures forall u :: (u in Fresh(p, n) <==> p <= u < p + n) && (u in Fresh(p, n) ==> Fresh(p, n)[u] == p)
  {
    if n > 0 { FreshIs(p, n - 1); }
  }

  lemma GrownGood(h: Heap, base: int, p: int, n: nat)
    requires Good(h, base) && n > 0 && p > base && forall u :: u in h.home ==> u < p
    ensures Good(Grown(h, p, n), base) && p !in h.live
  {
    FreshIs(p, n);
    var h' := Grown(h, p, n);
    forall a | IsBlock(h, base, a) ensures a < p { assert Owns(h, a) && a in h.home; }
    assert !IsBlock(h, base, p);
    forall i | 1 <= i < |h'.ring| ensures GapAt(h', i) {
      InRing(h, base, i);
      assert GapAt(h, i);
    }
    hide Gaps;
    GrownTiles(h, base, p, n);
  }

  lemma GrownTiles(h: Heap, base: int, p: int, n: nat)
    requires Rising(h, base) && Tiles(h, base) && n > 0 && p > base && (forall u :: u in h.home ==> u < p)
    requires !IsBlock(h, base, p) && p !in h.ring
    ensures Tiles(Grown(h, p, n), base)
  {
    hide Tiles, Inside, Fresh;
    FreshIs(p, n);
    var h' := Grown(h, p, n);
    forall u | u in h'.home ensures u > base && IsBlock(h', base, h'.home[u]) && Inside(h', u, h'.home[u]) {
      GrownHouse(h, base, p, n, u);
    }
    forall a | IsBlock(h', base, a) ensures Owns(h', a) && a > base { if a != p { OldBlock(h, base, a); } }
    forall b | b in h'.live ensures b in h'.size && h'.size[b] == h'.live[b]
      && b !in h'.ring { if b != p { LiveSize(h, base, b); } }
    Retiled(h', base);
  }

  lemma OldBlock(h: Heap, base: int, a: int)
    requires Tiles(h, base) && IsBlock(h, base, a)
    ensures Owns(h, a) && a > base
  {
  }

  lemma GrownHouse(h: Heap, base: int, p: int, n: nat, u: int)
    requires Tiles(h, base) && p > base && u in Grown(h, p, n).home && (forall v :: v in h.home ==> v < p)
      && !IsBlock(h, base, p)
    ensures var h' := Grown(h, p, n); u > base && IsBlock(h', base, h'.home[u]) && Inside(h', u, h'.home[u])
  {
    FreshIs(p, n);
    assert u in h.home ==> IsBlock(h, base, h.home[u]) && Inside(h, u, h.home[u]);
  }

  function Next(i: nat, n: nat): nat { if i + 1 < n then i + 1 else 0 }

  // The pointers in the headers follow the ring.
  ghost predicate Linked(ptr: map<int, int>, ring: seq<int>) {
    forall i :: 0 <= i < |ring| ==> LinkAt(ptr, ring, i)
  }

  ghost predicate LinkAt(ptr: map<int, int>, ring: seq<int>, i: nat) {
    i < |ring| && ring[i] in ptr && ptr[ring[i]] == ring[Next(i, |ring|)]
  }

  // The last free block below b.
  ghost function Pred(ring: seq<int>, b: int): (k: nat)
    requires |ring| > 0 && ring[0] < b && forall i, j :: 0 <= i < j < |ring| ==> ring[i] < ring[j]
    ensures k < |ring| && ring[k] < b && (forall i :: k < i < |ring| ==> b <= ring[i])
  {
    if |ring| == 1 || ring[|ring| - 1] < b then |ring| - 1 else Pred(ring[..|ring| - 1], b)
  }

  // free's test, between neighbours p and q of the ring.
  predicate Stops(b: int, p: int, q: int) { (b > p && b < q) || (p >= q && (b > p || b < q)) }

  // free's loop stops exactly at the last free block below b.
  lemma StopsAt(h: Heap, base: int, b: int, k: nat, i: nat)
    requires Good(h, base) && b in h.live && Before(h, b, k) && i < |h.ring|
    ensures Stops(b, h.ring[i], h.ring[Next(i, |h.ring|)]) <==> i == k
  {
    LiveSize(h, base, b);
    hide Tiles, Gaps;
    assert h.ring[i] != b && h.ring[Next(i, |h.ring|)] in h.ring;
  }

  lemma FindPred(h: Heap, base: int, b: int) returns (k: nat)
    requires Good(h, base) && b in h.live
    ensures Before(h, b, k)
  {
    LiveSize(h, base, b);
    hide Tiles, Gaps;
    k := Pred(h.ring, b);
    assert k + 1 < |h.ring| ==> h.ring[k + 1] in h.ring;
  }

  // The ring without the d entries after k, and with mid there instead.
  function Spliced(s: seq<int>, k: nat, mid: seq<int>, d: nat): seq<int>
    requires k + 1 + d <= |s|
  {
    s[..k + 1] + mid + s[k + 1 + d..]
  }

  lemma Relinked(ptr: map<int, int>, s: seq<int>, k: nat, mid: seq<int>, d: nat, ptr': map<int, int>)
    requires Linked(ptr, s) && k + 1 + d <= |s| && |mid| <= 1 && (forall i, j :: 0 <= i < j < |s| ==> s[i] != s[j])
    requires forall x :: x in s && x != s[k] && x in ptr ==> x in ptr' && ptr'[x] == ptr[x]
    requires forall x :: x in mid ==> x !in s
    requires LinkAt(ptr', Spliced(s, k, mid, d), k) && (|mid| == 1 ==> LinkAt(ptr', Spliced(s, k, mid, d), k + 1))
    ensures Linked(ptr', Spliced(s, k, mid, d))
  {
    var t := Spliced(s, k, mid, d);
    forall i | 0 <= i < |t| ensures LinkAt(ptr', t, i) {
      if i < k {
        assert LinkAt(ptr, s, i) && t[i] == s[i] && t[i + 1] == s[i + 1] && s[i] in s;
      } else if i > k + |mid| {
        var j := i - |mid| + d;
        assert LinkAt(ptr, s, j) && t[i] == s[j] && s[j] in s && s[j] != s[k];
        assert t[Next(i, |t|)] == s[Next(j, |s|)];
      }
    }
  }

  /** Two blocks, free or live, share no unit, and no two free blocks touch. */
  lemma Disjoint(h: Heap, base: int, a: int, b: int)
    requires Good(h, base) && IsBlock(h, base, a) && IsBlock(h, base, b) && a < b
    ensures a in h.size && b in h.size && a + h.size[a] <= b
    ensures a !in h.live && b !in h.live ==> a + h.size[a] < b
  {
    assert Owns(h, a) && Owns(h, b);
    if b < a + h.size[a] { Apart(h, base, a, b, b); }
    if a !in h.live && b !in h.live {
      var i :| 0 <= i < |h.ring| && h.ring[i] == a;
      var j :| 0 <= j < |h.ring| && h.ring[j] == b;
      FreeGap(h, base, i, j);
    }
  }

  lemma FreeGap(h: Heap, base: int, i: nat, j: nat)
    requires Good(h, base) && 1 <= i < |h.ring| && 1 <= j < |h.ring| && h.ring[i] < h.ring[j]
    ensures h.ring[i] in h.size && h.ring[i] + h.size[h.ring[i]] < h.ring[j]
  {
    assert i < j;
    Below(h, base, i, i + 1);
    assert GapAt(h, i);
  }

  // What free does to the heap, after ring[k].
  ghost function Returned(h: Heap, b: int, k: nat): Heap
    requires k < |h.ring|
  {
    var h2 := Joined(Released(h, b, k), k + 1);
    if k == 0 then h2 else Joined(h2, k)
  }

  lemma ReturnedGood(h: Heap, base: int, b: int, k: nat)
    requires Good(h, base) && b in h.live && Before(h, b, k)
    ensures Good(Returned(h, b, k), base)
  {
    ReleasedTiles(h, base, b, k);
    var h1 := Released(h, b, k);
    forall j | 1 <= j < |h1.ring| && j != k && j != k + 1 ensures GapAt(h1, j) { ReleasedGaps(h, b, k, j); }
    MergeBoth(h1, base, k);
  }

  // Block i is merged with the next if they touch; GapAt then holds at i too.
  ghost function Joined(h: Heap, i: nat): Heap {
    if 1 <= i && i + 1 < |h.ring| && h.ring[i] in h.size && h.ring[i + 1] in h.size
      && h.ring[i] + h.size[h.ring[i]] == h.ring[i + 1]
    then Merged(h, i) else h
  }

  lemma JoinedTiles(h: Heap, base: int, i: nat)
    requires Rising(h, base) && Tiles(h, base)
    ensures Rising(Joined(h, i), base) && Tiles(Joined(h, i), base)
  {
    if Joined(h, i) != h { MergedTiles(h, base, i); }
  }

  lemma JoinedGap(h: Heap, base: int, i: nat, j: nat)
    requires Rising(h, base) && Tiles(h, base) && 1 <= i && 1 <= j < |Joined(h, i).ring|
    requires forall l :: 1 <= l < |h.ring| && l != i && l != i - 1 ==> GapAt(h, l)
    requires j != i - 1 || GapAt(h, j)
    ensures GapAt(Joined(h, i), j)
  {
    hide Tiles;
    if i + 1 < |h.ring| {
      InRing(h, base, i);
      InRing(h, base, i + 1);
    }
    if Joined(h, i) != h { MergedGap(h, i, j); }
  }

  // The released block at k + 1 is merged with both neighbours as need be.
  lemma MergeBoth(h1: Heap, base: int, k: nat)
    requires Rising(h1, base) && Tiles(h1, base) && k + 1 < |h1.ring|
    requires forall j :: 1 <= j < |h1.ring| && j != k && j != k + 1 ==> GapAt(h1, j)
    ensures Good(if k == 0 then Joined(h1, 1) else Joined(Joined(h1, k + 1), k), base)
  {
    hide Tiles, GapAt, Merged;
    var h2 := Joined(h1, k + 1);
    JoinedTiles(h1, base, k + 1);
    forall j | 1 <= j < |h2.ring| && j != k ensures GapAt(h2, j) { JoinedGap(h1, base, k + 1, j); }
    if k >= 1 {
      JoinedTiles(h2, base, k);
      forall j | 1 <= j < |Joined(h2, k).ring| ensures GapAt(Joined(h2, k), j) { JoinedGap(h2, base, k, j); }
    }
  }

  // free's neighbours: p = ring[k] and q after it; whether b touches q, and p touches b.
  predicate TouchesNext(h: Heap, b: int, k: nat)
    requires k < |h.ring|
  {
    b in h.size && b + h.size[b] == h.ring[Next(k, |h.ring|)]
  }

  predicate TouchesPrev(h: Heap, b: int, k: nat)
    requires k < |h.ring|
  {
    h.ring[k] in h.size && h.ring[k] + h.size[h.ring[k]] == b
  }

  lemma Neighbours(h: Heap, base: int, b: int, k: nat)
    requires Good(h, base) && b in h.live && Before(h, b, k)
    ensures b in h.size && h.ring[k] in h.size && h.ring[Next(k, |h.ring|)] in h.size
    ensures (TouchesNext(h, b, k) ==> k + 1 < |h.ring|) && (TouchesPrev(h, b, k) ==> k >= 1) && b !in h.ring
      && h.ring[k] >= base
    ensures forall i, j :: 0 <= i < j < |h.ring| ==> h.ring[i] != h.ring[j]
  {
    LiveSize(h, base, b);
    assert Owns(h, b);
    if k >= 1 { InRing(h, base, k); }
    if k + 1 < |h.ring| { InRing(h, base, k + 1); }
    hide Tiles, Gaps;
  }

  // The first test and its assignments.
  lemma JoinedNext(h: Heap, base: int, b: int, k: nat)
    requires Good(h, base) && b in h.live && Before(h, b, k)
    ensures var q := h.ring[Next(k, |h.ring|)];
      b in h.size && q in h.size && (TouchesNext(h, b, k) ==> k + 1 < |h.ring|) &&
      Joined(Released(h, b, k), k + 1) == Heap(if TouchesNext(h, b, k) then h.size[b := h.size[b] + h.size[q]]
        else h.size,
        Spliced(h.ring, k, [b], if TouchesNext(h, b, k) then 1 else 0), h.live - {b},
          Joined(Released(h, b, k), k + 1).home)
    ensures Joined(Released(h, b, k), k + 1).home.Keys == h.home.Keys
  {
    hide Good;
    Neighbours(h, base, b, k);
    var h1 := Released(h, b, k);
    assert h1.ring == Spliced(h.ring, k, [b], 0) && h1.ring[k + 1] == b;
    if k + 1 < |h.ring| {
      assert h1.ring[k + 2] == h.ring[k + 1];
      assert h1.ring[..k + 2] + h1.ring[k + 3..] == Spliced(h.ring, k, [b], 1);
    }
  }

  // The sizes after free.
  function SizeAfter(h: Heap, b: int, p: int, q: int): map<int, int>
    requires b in h.size && p in h.size && q in h.size
  {
    var size := if b + h.size[b] == q then h.size[b := h.size[b] + h.size[q]] else h.size;
    if p + h.size[p] == b then size[p := size[p] + size[b]] else size
  }

  // The second.
  lemma ReturnedIs(h: Heap, base: int, b: int, k: nat)
    requires Good(h, base) && b in h.live && Before(h, b, k)
    ensures b in h.size && h.ring[k] in h.size && h.ring[Next(k, |h.ring|)] in h.size
      && (TouchesNext(h, b, k) ==> k + 1 < |h.ring|)
    ensures Returned(h, b, k).size == SizeAfter(h, b, h.ring[k], h.ring[Next(k, |h.ring|)])
    ensures Returned(h, b, k).ring == Spliced(h.ring, k, if TouchesPrev(h, b, k) then []
      else [b], if TouchesNext(h, b, k) then 1 else 0)
    ensures Returned(h, b, k).home.Keys == h.home.Keys && Returned(h, b, k).live == h.live - {b}
  {
    Neighbours(h, base, b, k);
    JoinedNext(h, base, b, k);
    hide Good, Released;
    var h2, d := Joined(Released(h, b, k), k + 1), if TouchesNext(h, b, k) then 1 else 0;
    hide Joined;
    assert h2.ring[k] == h.ring[k] && h2.ring[k + 1] == b && b != h.ring[k];
    if k >= 1 { JoinedPrev(h2, k, h.ring, d, b); }
  }

  lemma JoinedPrev(h2: Heap, k: nat, ring: seq<int>, d: nat, b: int)
    requires 1 <= k && k + 1 + d <= |ring| && h2.ring == Spliced(ring, k, [b], d) && ring[k] in h2.size && b in h2.size
    ensures var p := ring[k];
      if p + h2.size[p] == b then
        Joined(h2, k).size == h2.size[p := h2.size[p] + h2.size[b]] && Joined(h2, k).ring == Spliced(ring, k, [], d)
        && Joined(h2, k).home.Keys == h2.home.Keys && Joined(h2, k).live == h2.live
      else Joined(h2, k) == h2
  {
    assert h2.ring[k] == ring[k] && h2.ring[k + 1] == b;
    assert h2.ring[..k + 1] + h2.ring[k + 2..] == Spliced(ring, k, [], d);
  }

  // The pointers after free.
  function PtrAfter(ptr: map<int, int>, h: Heap, b: int, p: int): map<int, int>
    requires b in h.size && p in h.size && p in ptr && ptr[p] in ptr
  {
    var q := ptr[p];
    var next := if b + h.size[b] == q then ptr[q] else q;
    ptr[b := next][p := if p + h.size[p] == b then next else b]
  }

  lemma FreeLinks(ptr: map<int, int>, h: Heap, base: int, b: int, k: nat)
    requires Good(h, base) && b in h.live && Before(h, b, k) && Linked(ptr, h.ring)
    ensures b in h.size && h.ring[k] in h.size && h.ring[k] in ptr && ptr[h.ring[k]] == h.ring[Next(k, |h.ring|)]
      && ptr[h.ring[k]] in ptr
    ensures h.ring[k] >= base && Linked(PtrAfter(ptr, h, b, h.ring[k]), Returned(h, b, k).ring)
      && k < |Returned(h, b, k).ring| && Returned(h, b, k).ring[k] == h.ring[k]
  {
    hide Good, Returned, Linked;
    Neighbours(h, base, b, k);
    ReturnedIs(h, base, b, k);
    LinkedAt(ptr, h.ring, k);
    LinkedAt(ptr, h.ring, Next(k, |h.ring|));
    var mid, d := if TouchesPrev(h, b, k) then [] else [b], if TouchesNext(h, b, k) then 1 else 0;
    SplicedNext(h.ring, k, mid, d);
    hide Spliced;
    Relinked(ptr, h.ring, k, mid, d, PtrAfter(ptr, h, b, h.ring[k]));
  }

  lemma LinkedAt(ptr: map<int, int>, ring: seq<int>, i: nat)
    requires Linked(ptr, ring) && i < |ring|
    ensures LinkAt(ptr, ring, i)
  {
  }

  lemma SplicedNext(s: seq<int>, k: nat, mid: seq<int>, d: nat)
    requires k + 1 + d <= |s| && |mid| <= 1 && d <= 1
    ensures var t := Spliced(s, k, mid, d);
      k + |mid| < |t| && t[k] == s[k] && (|mid| == 1 ==> t[Next(k, |t|)] == t[k + 1] == mid[0])
        && t[Next(k + |mid|, |t|)] == if d == 1 then s[Next(k + 1, |s|)] else s[Next(k, |s|)]
  {
  }

  // Some free block has n units.
  ghost predicate Fits(h: Heap, n: int) { exists i :: FitsAt(h, i, n) }

  ghost predicate FitsAt(h: Heap, i: int, n: int) { 1 <= i < |h.ring| && h.ring[i] in h.size && h.size[h.ring[i]] >= n }

  // What is freed is in a free block at least as large.
  lemma ReturnedFits(h: Heap, base: int, b: int, k: nat)
    requires Good(h, base) && b in h.live && Before(h, b, k)
    ensures b in h.size && Fits(Returned(h, b, k), h.size[b])
  {
    Neighbours(h, base, b, k);
    ReturnedIs(h, base, b, k);
    Sizes(h, base, b, k);
    hide Good, Returned;
    var h', mid := Returned(h, b, k), if TouchesPrev(h, b, k) then [] else [b];
    SplicedNext(h.ring, k, mid, if TouchesNext(h, b, k) then 1 else 0);
    assert FitsAt(h', if TouchesPrev(h, b, k) then k else k + 1, h.size[b]);
  }

  lemma Sizes(h: Heap, base: int, b: int, k: nat)
    requires Good(h, base) && k < |h.ring|
    ensures h.ring[k] in h.size && h.size[h.ring[k]] >= 0 && h.ring[Next(k, |h.ring|)] in h.size
      && h.size[h.ring[Next(k, |h.ring|)]] >= 0
  {
    if k >= 1 { InRing(h, base, k); }
    if k + 1 < |h.ring| { InRing(h, base, k + 1); }
  }

  lemma Larger(h: Heap, n: int, m: int)
    requires Fits(h, n) && m <= n
    ensures Fits(h, m)
  {
    var i :| FitsAt(h, i, n);
    assert FitsAt(h, i, m);
  }

  // sbrk's answer is above all memory it has handed out.
  ghost predicate Above(home: map<int, int>, base: int, p: int) { p > base && forall u :: u in home ==> u < p }

  lemma GrownUnits(h: Heap, base: int, p: int, n: nat)
    requires Good(h, base) && n > 0 && Above(h.home, base, p)
    ensures Good(Grown(h, p, n), base) && p !in h.live && Grown(h, p, n).home.Keys == h.home.Keys + Range(p, n)
  {
    GrownGood(h, base, p, n);
    hide Good, Fresh, Range;
    FreshKeys(p, n);
    assert (h.home + Fresh(p, n)).Keys == h.home.Keys + Fresh(p, n).Keys;
  }

  lemma {:induction false} FreshKeys(p: int, n: nat)
    ensures Fresh(p, n).Keys == Range(p, n)
  {
    if n > 0 { FreshKeys(p, n - 1); }
  }

  // What malloc relies on when it has found a block.
  lemma CarveFacts(h: Heap, base: int, ptr: map<int, int>, j: nat, n: nat)
    requires Good(h, base) && Linked(ptr, h.ring) && FitsAt(h, j, n) && n > 0 && base > 0
    ensures 1 <= j < |h.ring| && h.ring[j] in h.size && h.size[h.ring[j]] >= n && h.ring[j] in ptr
    ensures h.ring[j] > h.ring[j - 1] > 0 && h.ring[j - 1] in h.ring && h.ring[j] !in h.live
    ensures Good(Took(h, j), base) && Linked(ptr[h.ring[j - 1] := ptr[h.ring[j]]], Took(h, j).ring)
      && h.ring[j - 1] in Took(h, j).ring
    ensures h.size[h.ring[j]] > n ==> Good(Split(h, j, n), base) && h.ring[j] + (h.size[h.ring[j]] - n) !in h.live
    ensures Split(h, j, n).home.Keys == h.home.Keys
  {
    TookGood(h, base, j);
    if h.size[h.ring[j]] > n { SplitGood(h, base, j, n); }
    NotLive(h, base, j);
    hide Tiles, Gaps, Linked;
    var a, m := h.ring[j], h.size[h.ring[j]];
    MovedKeys(h.home, a + (m - n), a + m, a + (m - n));
    CarveLinks(h, ptr, j);
    assert h.ring[0] <= h.ring[j - 1];
  }

  lemma NotLive(h: Heap, base: int, j: nat)
    requires Tiles(h, base) && j < |h.ring|
    ensures h.ring[j] !in h.live
  {
    if h.ring[j] in h.live { LiveSize(h, base, h.ring[j]); }
  }

  lemma CarveLinks(h: Heap, ptr: map<int, int>, j: nat)
    requires 1 <= j < |h.ring| && h.ring[j] in h.size && Linked(ptr, h.ring)
      && (forall i, l :: 0 <= i < l < |h.ring| ==> h.ring[i] < h.ring[l])
    ensures h.ring[j] in ptr && Linked(ptr[h.ring[j - 1] := ptr[h.ring[j]]], Took(h, j).ring)
      && h.ring[j - 1] in Took(h, j).ring
  {
    var s := h.ring;
    assert Took(h, j).ring == Spliced(s, j - 1, [], 1);
    LinkedAt(ptr, s, j - 1);
    LinkedAt(ptr, s, j);
    SplicedNext(s, j - 1, [], 1);
    Relinked(ptr, s, j - 1, [], 1, ptr[s[j - 1] := ptr[s[j]]]);
    assert Took(h, j).ring[j - 1] == s[j - 1];
  }

  // Units for nbytes and a header.
  function Units(nbytes: nat): nat { (nbytes + UNIT - 1) / UNIT + 1 }

  // A block of this many units holds a header and n bytes, and one unit less would not.
  predicate Suits(n: nat, units: int) { units * UNIT >= n + UNIT && (units - 1) * UNIT < n + UNIT }

  lemma UnitsSuit(n: nat)
    ensures Suits(n, Units(n)) && Units(n) > 0
  {
  }

  ghost predicate AllSuit(asked: map<int, nat>, live: map<int, int>) {
    asked.Keys == live.Keys && forall b :: b in asked ==> Suits(asked[b], live[b])
  }

  lemma SuitsMore(asked: map<int, nat>, live: map<int, int>, b: int, n: nat, units: int)
    requires AllSuit(asked, live) && Suits(n, units)
    ensures AllSuit(asked[b := n], live[b := units])
  {
  }

  lemma SuitsLess(asked: map<int, nat>, live: map<int, int>, b: int)
    requires AllSuit(asked, live)
    ensures AllSuit(asked - {b}, live - {b})
  {
  }

  lemma SameAsked(asked: map<int, nat>, live: map<int, int>)
    requires AllSuit(asked, live)
    ensures asked.Keys == live.Keys
  {
  }

  // Address x, in bytes, is one of those that malloc handed out with block b.
  predicate Handed(asked: map<int, nat>, b: int, x: int) {
    b in asked && (b + 1) * UNIT <= x < (b + 1) * UNIT + asked[b]
  }

  // Address x is in the header of block c.
  predicate InHeader(c: int, x: int) { c * UNIT <= x < (c + 1) * UNIT }

  /** A byte that malloc handed out is in memory that sbrk gave, belongs to no other caller, and is in
      no header, of a live block, a free one or base. */
  lemma BytesApart(h: Heap, base: int, asked: map<int, nat>, a: int, x: int)
    requires Good(h, base) && AllSuit(asked, h.live) && Handed(asked, a, x)
    ensures x / UNIT in h.home
    ensures forall b :: Handed(asked, b, x) ==> b == a
    ensures forall c :: IsBlock(h, base, c) || c == base ==> !InHeader(c, x)
  {
    HandedHome(h, base, asked, a, x);
    forall b | Handed(asked, b, x) ensures b == a { HandedHome(h, base, asked, b, x); }
    forall c | IsBlock(h, base, c) || c == base ensures c != x / UNIT { assert c != base ==> Owns(h, c); }
  }

  lemma HandedHome(h: Heap, base: int, asked: map<int, nat>, a: int, x: int)
    requires Good(h, base) && AllSuit(asked, h.live) && Handed(asked, a, x)
    ensures x / UNIT in h.home && h.home[x / UNIT] == a && a < x / UNIT && x / UNIT > base
  {
    assert a in h.live && IsBlock(h, base, a) && Owns(h, a) && Suits(asked[a], h.live[a]);
    assert a + 1 <= x / UNIT < a + h.live[a];
  }

  lemma FirstRing(h: Heap, base: int, ptr: map<int, int>)
    requires h.ring == [base] && h.live == map[] && h.home == map[] && base in h.size && h.size[base] == 0
      && base in ptr && ptr[base] == base
    ensures Good(h, base) && Linked(ptr, h.ring)
  {
  }

  // A block is large enough just when malloc's test says so; base never is.
  lemma RingSize(h: Heap, base: int, j: nat, n: nat)
    requires Good(h, base) && j < |h.ring| && n > 0
    ensures h.ring[j] in h.size && (h.size[h.ring[j]] >= n <==> FitsAt(h, j, n)) && (FitsAt(h, j, n) ==> j >= 1)
  {
    if j >= 1 { InRing(h, base, j); }
  }

  lemma PickFit(h: Heap, n: int) returns (g: nat)
    requires Fits(h, n)
    ensures FitsAt(h, g, n) && g < |h.ring|
  {
    g :| FitsAt(h, g, n);
  }

  lemma SameIndex(h: Heap, base: int, i: nat, j: nat)
    requires Good(h, base) && i < |h.ring| && j < |h.ring| && h.ring[i] == h.ring[j]
    ensures i == j
  {
  }

  // Steps from ring index j on to index t.
  function Dist(j: nat, t: nat, n: nat): int { if j <= t then t - j else n - j + t }

  // malloc has passed every block from after f up to j, and none fits.
  ghost predicate Seen(h: Heap, f: nat, j: nat, n: int) {
    forall t: nat :: t < |h.ring| && Dist(Next(f, |h.ring|), t, |h.ring|) < Dist(Next(f, |h.ring|), j, |h.ring|) ==>
      !FitsAt(h, t, n)
  }

  lemma AllSeen(h: Heap, f: nat, n: int)
    requires f < |h.ring| && Seen(h, f, f, n) && !FitsAt(h, f, n)
    ensures !Fits(h, n)
  {
    forall t: nat | t < |h.ring| ensures !FitsAt(h, t, n) {
      assert t != f ==> Dist(Next(f, |h.ring|), t, |h.ring|) < Dist(Next(f, |h.ring|), f, |h.ring|);
    }
  }

  // One step round the ring brings its end, and a block that fits, nearer.
  lemma SeenNext(h: Heap, f: nat, j: nat, g: nat, n: int, grew: bool)
    requires f < |h.ring| && j < |h.ring| && g < |h.ring|
    ensures !grew && j != f && Seen(h, f, j, n) && !FitsAt(h, j, n) ==> Seen(h, f, Next(j, |h.ring|), n)
    ensures j != f ==> Dist(Next(j, |h.ring|), f, |h.ring|) < Dist(j, f, |h.ring|)
    ensures j != g && j != f && Dist(j, g, |h.ring|) <= Dist(j, f, |h.ring|) ==>
      Dist(Next(j, |h.ring|), g, |h.ring|) <= Dist(Next(j, |h.ring|), f, |h.ring|)
        && Dist(Next(j, |h.ring|), g, |h.ring|) < Dist(j, g, |h.ring|)
    ensures Dist(Next(f, |h.ring|), g, |h.ring|) <= Dist(Next(f, |h.ring|), f, |h.ring|)
  {
  }

  /** Where malloc's search stands: j is next, from after f = freep; once memory was added, a
      block g that fits lies ahead. */
  ghost predicate Hunt(h0: Heap, h: Heap, freep: int, f: nat, j: nat, g: nat, n: int, grew: bool) {
    && f < |h.ring| && h.ring[f] == freep && j < |h.ring| && g < |h.ring|
    && if grew then FitsAt(h, g, n) && Dist(j, g, |h.ring|) <= Dist(j, f, |h.ring|) else h == h0 && Seen(h, f, j, n)
  }

  ghost function HuntStart(h: Heap, freep: int): (f: nat)
    requires freep in h.ring
    ensures f < |h.ring| && h.ring[f] == freep
  {
    var f: nat :| f < |h.ring| && h.ring[f] == freep;
    f
  }

  lemma HuntFirst(h: Heap, freep: int, f: nat, n: int)
    requires f < |h.ring| && h.ring[f] == freep
    ensures Hunt(h, h, freep, f, Next(f, |h.ring|), 0, n, false)
  {
  }

  // Block j does not fit: either the search is over, or it goes on.
  lemma HuntTurn(h0: Heap, h: Heap, base: int, freep: int, f: nat, j: nat, g: nat, n: int, grew: bool)
    requires Good(h, base) && Hunt(h0, h, freep, f, j, g, n, grew) && !FitsAt(h, j, n)
    ensures h.ring[j] == freep ==> !grew && !Fits(h0, n)
    ensures h.ring[j] != freep ==> Hunt(h0, h, freep, f, Next(j, |h.ring|), g, n, grew)
    ensures h.ring[j] != freep ==> Dist(Next(j, |h.ring|), if grew then g else f, |h.ring|) < Dist(j, if grew then g
      else f, |h.ring|)
    ensures h.ring[j] != freep ==> 0 <= Dist(j, if grew then g else f, |h.ring|)
  {
    hide Good;
    if h.ring[j] == freep {
      SameIndex(h, base, j, f);
      if !grew { AllSeen(h, f, n); }
    } else {
      SeenNext(h, f, j, g, n, grew);
    }
  }

  lemma HuntAgain(h0: Heap, h: Heap, freep: int, f: nat, g: nat, n: int)
    requires f < |h.ring| && h.ring[f] == freep && FitsAt(h, g, n)
    ensures Hunt(h0, h, freep, f, Next(f, |h.ring|), g, n, true)
  {
    SeenNext(h, f, f, g, n, true);
  }

  class Allocator {
    var ptr: map<int, int>
    var size: map<int, int>
    var freep: int                   // 0 before the first malloc
    const base: int
    ghost var ring: seq<int>
    ghost var live: map<int, int>
    ghost var home: map<int, int>
    ghost var asked: map<int, nat>   // how many bytes each live block was asked for

    ghost function H(): Heap
      reads this
    {
      Heap(size, ring, live, home)
    }

    ghost predicate Valid()
      reads this
    {
      && base > 0 && AllSuit(asked, live)
      && if freep == 0 then live == map[] && home == map[] && ring == []
         else Good(H(), base) && Linked(ptr, ring) && freep in ring
    }

    constructor (base: int)
      requires base > 0
      ensures Valid() && this.base == base && live == map[] && home == map[]
    {
      this.base, freep, ptr, size := base, 0, map[], map[];
      ring, live, home, asked := [], map[], map[], map[];
    }

    method Free(ap: int)
      requires Valid() && ap - 1 in live
      modifies this
      ensures Valid() && live == old(live) - {ap - 1} && home.Keys == old(home).Keys && freep != 0
      ensures ap - 1 in old(size) && Fits(H(), old(size)[ap - 1]) && asked == old(asked) - {ap - 1}
    {
      hide AllSuit, Good, Linked, Returned, Spliced, TouchesNext, TouchesPrev;
      var bp := ap - 1;
      SuitsLess(asked, live, bp);
      var p;
      ghost var k, h, ptr0 := 0, H(), ptr;
      p, k := Search(bp);
      ReturnedIs(h, base, bp, k);
      ReturnedGood(h, base, bp, k);
      FreeLinks(ptr, h, base, bp, k);
      Splice(bp, p);
      freep := p;
      ghost var h' := Returned(h, bp, k);
      ring, live, home, asked := h'.ring, h'.live, h'.home, asked - {bp};
      assert ring[k] == p;
      ReturnedFits(h, base, bp, k);
    }

    // Put bp after p, merging it with both neighbours as need be.
    method Splice(bp: int, p: int)
      requires bp in size && p in size && p in ptr && ptr[p] in ptr && ptr[p] in size && bp != p
      modifies this`size, this`ptr
      ensures size == SizeAfter(old(H()), bp, p, old(ptr)[p]) && ptr == PtrAfter(old(ptr), old(H()), bp, p)
    {
      if bp + size[bp] == ptr[p] {
        size := size[bp := size[bp] + size[ptr[p]]];
        ptr := ptr[bp := ptr[ptr[p]]];
      } else {
        ptr := ptr[bp := ptr[p]];
      }
      if p + size[p] == bp {
        size := size[p := size[p] + size[bp]];
        ptr := ptr[p := ptr[bp]];
      } else {
        ptr := ptr[p := bp];
      }
    }

    // Ask for memory at brk, sbrk's answer, and free it.
    method Morecore(nu: nat, brk: Option<int>) returns (ok: bool)
      requires Valid() && freep != 0 && nu > 0 && (brk.Some? ==> Above(home, base, brk.value))
      modifies this
      ensures Valid() && live == old(live) && asked == old(asked) && freep != 0 && (ok <==> brk.Some?)
      ensures !ok ==> H() == old(H()) && ptr == old(ptr) && freep == old(freep)
      ensures ok ==> Fits(H(), nu) && home.Keys == old(home).Keys + Range(brk.value, if nu < MORE then MORE else nu)
    {
      hide Good, Linked, Fresh, Range, Above, Fits, AllSuit;
      var n := if nu < MORE then MORE else nu;
      if brk.None? { return false; }
      var p := brk.value;
      GrownUnits(H(), base, p, n);
      SameAsked(asked, live);
      SuitsMore(asked, live, p, (n - 1) * UNIT, n);
      size := size[p := n];
      live, home, asked := live[p := n], home + Fresh(p, n), asked[p := (n - 1) * UNIT];
      Free(p + 1);
      assert live == old(live) && asked == old(asked);
      Larger(H(), n, nu);
      ok := true;
    }

    // Take nunits from block j of the ring, the one after prevp.
    method Carve(prevp: int, p: int, nunits: nat, ghost j: nat, ghost nbytes: nat) returns (r: int)
      requires Valid() && freep != 0 && nunits > 0 && Suits(nbytes, nunits) && FitsAt(H(), j, nunits) && p == ring[j]
        && prevp == ring[j - 1]
      modifies this
      ensures Valid() && freep != 0 && r > 0 && r - 1 !in old(live) && live == old(live)[r - 1 := nunits]
        && home.Keys == old(home).Keys && asked == old(asked)[r - 1 := nbytes]
    {
      hide Good, Linked, Moved, FitsAt, AllSuit, Suits;
      ghost var h := H();
      CarveFacts(h, base, ptr, j, nunits);
      if size[p] == nunits {
        ptr := ptr[prevp := ptr[p]];
        ghost var h' := Took(h, j);
        ring, live := h'.ring, h'.live;
        freep := prevp;
        r := p + 1;
        SuitsMore(asked, h.live, p, nbytes, nunits);
      } else {
        var b := p + (size[p] - nunits);
        size := size[p := size[p] - nunits];
        size := size[b := nunits];
        ghost var h' := Split(h, j, nunits);
        live, home := h'.live, h'.home;
        freep := prevp;
        r := b + 1;
        SuitsMore(asked, h.live, b, nbytes, nunits);
      }
      asked := asked[r - 1 := nbytes];
    }

    /** A block of nunits units, or 0 when none fits and sbrk refuses; brk is what sbrk would answer. */
    method Malloc(nbytes: nat, brk: Option<int>) returns (r: int)
      requires Valid() && Units(nbytes) * UNIT < 0x8000_0000 && (brk.Some? ==> Above(home, base, brk.value))
      modifies this
      ensures Valid()
      ensures r != 0 ==> r - 1 !in old(live) && live == old(live)[r - 1 := Units(nbytes)]
      ensures r != 0 ==> asked == old(asked)[r - 1 := nbytes]
      ensures r != 0 ==> live[r - 1] * UNIT >= nbytes + UNIT && (live[r - 1] - 1) * UNIT < nbytes + UNIT
      ensures r == 0 ==> asked == old(asked)
      ensures r == 0 ==>
        live == old(live) && home == old(home) && brk.None?
        && (old(freep) != 0 ==> !Fits(old(H()), Units(nbytes)))
      ensures old(freep) != 0 && Fits(old(H()), Units(nbytes)) ==> home.Keys == old(home).Keys
      ensures home.Keys == old(home).Keys
        || (brk.Some? && home.Keys == old(home).Keys
          + Range(brk.value, if Units(nbytes) < MORE then MORE else Units(nbytes)))
    {
      hide Good, Linked, Range, FitsAt, Fits, Hunt, Seen, Above, Dist, AllSuit, Units;
      UnitsSuit(nbytes);
      var nunits := Units(nbytes);
      if freep == 0 {
        ptr, size, freep := ptr[base := base], size[base := 0], base;
        ring := [base];
        FirstRing(H(), base, ptr);
      }
      ghost var h := H();
      ghost var f: nat, g: nat, grew := HuntStart(h, freep), 0, false;
      ghost var j: nat := Next(f, |ring|);
      HuntFirst(h, freep, f, nunits);
      LinkedAt(ptr, ring, f);
      var prevp := freep;
      var p := ptr[prevp];
      while true
        invariant Valid() && freep != 0 && live == h.live && asked == old(asked)
          && Hunt(h, H(), freep, f, j, g, nunits, grew)
        invariant j < |ring| && p == ring[j] && prevp == ring[if j == 0 then |ring| - 1 else j - 1]
        invariant if grew then !Fits(h, nunits) && brk.Some? && home.Keys ==
          h.home.Keys + Range(brk.value, if nunits < MORE then MORE else nunits) else H() == h
        decreases !grew, Dist(j, if grew then g else f, |ring|)
      {
        RingSize(H(), base, j, nunits);
        if size[p] >= nunits {
          r := Carve(prevp, p, nunits, j, nbytes);
          return;
        }
        HuntTurn(h, H(), base, freep, f, j, g, nunits, grew);
        if p == freep {
          var ok := Morecore(nunits, brk);
          if !ok { return 0; }
          p := freep;
          f := HuntStart(H(), freep);
          g := PickFit(H(), nunits);
          j, grew := f, true;
          HuntAgain(h, H(), freep, f, g, nunits);
        }
        LinkedAt(ptr, ring, j);
        prevp, p := p, ptr[p];
        j := Next(j, |ring|);
      }
    }

    // The block after which b belongs.
    method Search(b: int) returns (p: int, ghost k: nat)
      requires Valid() && freep != 0 && b in live
      ensures k < |ring| && p == ring[k] && Before(H(), b, k)
    {
      hide Good;
      k := FindPred(H(), base, b);
      p := freep;
      ghost var i: nat :| i < |ring| && ring[i] == freep;
      assert LinkAt(ptr, ring, i);
      while !(b > p && b < ptr[p])
        invariant LinkAt(ptr, ring, i) && p == ring[i]
        decreases if i <= k then k - i else |ring| - i + k
      {
        StopsAt(H(), base, b, k, i);
        if p >= ptr[p] && (b > p || b < ptr[p]) { break; }
        p := ptr[p];
        i := Next(i, |ring|);
        assert LinkAt(ptr, ring, i);
      }
      StopsAt(H(), base, b, k, i);
    }
  }
}
