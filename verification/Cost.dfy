/** What the virtual memory code asks of the free list: which pages of a table an
    operation needs, and when there are frames enough for them. */
module Cost {
  import opened Sets
  import opened Spending
  import opened Frames
  import opened Cow

  // The interior page that walk looks for at a level.
  function NodeAt(level: nat, v: nat): Slot
    requires 1 <= level <= 2
  {
    if level == 2 then L1(v / (NPTE * NPTE)) else L0(v / NPTE)
  }

  // The interior pages above page v that walk has passed when it comes to a level.
  ghost function Passed(level: nat, v: nat): set<Slot> {
    if level == 0 then {NodeAt(2, v), NodeAt(1, v)} else if level == 1 then {NodeAt(2, v)} else {}
  }

  // The interior pages above page v.
  ghost function Path(v: nat): set<Slot> { Passed(0, v) }

  // The interior pages above pages lo to hi.
  ghost function Nodes(lo: nat, hi: nat): set<Slot> {
    if hi <= lo then {} else Nodes(lo, hi - 1) + Path(hi - 1)
  }

  // What uvmalloc fills in for pages lo to hi: leaves and the interior pages above them.
  ghost function Region(lo: nat, hi: nat): set<Slot> {
    if hi <= lo then {} else Region(lo, hi - 1) + PagePath(hi - 1)
  }

  ghost function PagePath(v: nat): set<Slot> { Path(v) + {Leaf(v)} }

  // A new process: trapframe, root, and the interior pages above its two kernel pages.
  ghost function Skeleton(): set<Slot> { {Tf, Root} + Path(TRAMPOLINE) }

  ghost function NodeKeys(m: Slots): set<Slot> { set t | t in m && !t.Leaf? }

  lemma NoRegion(lo: nat)
    ensures Region(lo, lo) == {} == Nodes(lo, lo)
  {
  }

  // One level of walk.
  lemma LevelSpent(k: set<Slot>, f: int, k1: set<Slot>, f1: int, k2: set<Slot>, f2: int, level: nat, v: nat, ok: bool)
    requires 1 <= level <= 2 && Spent(k, f, k1, f1, Passed(level, v), true)
      && Spent(k1, f1, k2, f2, {NodeAt(level, v)}, ok)
    ensures if ok then Spent(k, f, k2, f2, Passed(level - 1, v), true) else !Enough(f, Path(v), k)
  {
    assert Passed(level - 1, v) == Passed(level, v) + {NodeAt(level, v)};
    SpentTwice(k, f, k1, f1, k2, f2, Passed(level, v), {NodeAt(level, v)}, ok);
    if !ok { TooFew(k, f, Passed(level - 1, v), Path(v)); }
  }

  // walk is through.
  lemma PathPassed(k: set<Slot>, f: int, k': set<Slot>, f': int, v: nat)
    requires Spent(k, f, k', f', Passed(0, v), true)
    ensures Spent(k, f, k', f', Path(v), true)
  {
  }

  lemma PathShort(k: set<Slot>, f: int, k': set<Slot>, f': int, v: nat)
    requires !Enough(f, Path(v), k)
    ensures Spent(k, f, k', f', Path(v), false)
  {
  }

  // A page of uvmalloc: its frame is taken first, its interior pages next.
  lemma LeafSpent(k: set<Slot>, f: int, k': set<Slot>, f': int, v: nat, ok: bool)
    requires Spent(k, f - 1, k', f', Path(v), ok) && Leaf(v) !in k
    ensures if ok then Spent(k, f, k' + {Leaf(v)}, f', PagePath(v), true) else !Enough(f, PagePath(v), k)
  {
    hide Passed;
    assert Leaf(v) !in Path(v) by { PathNodes(v); }
    assert PagePath(v) - k == (Path(v) - k) + {Leaf(v)};
  }

  lemma PathNodes(v: nat)
    ensures forall t :: t in Path(v) ==> t.L1? || t.L0?
  {
  }

  lemma NoLeafFrame(k: set<Slot>, v: nat)
    requires Leaf(v) !in k
    ensures !Enough(0, PagePath(v), k)
  {
    assert Leaf(v) in PagePath(v) - k;
  }

  // uvmalloc comes to page i of the pages up to hi.
  lemma RegionSpent(k: set<Slot>, f: int, k1: set<Slot>, f1: int, k2: set<Slot>, f2: int, lo: nat, i: nat, hi: nat,
      ok: bool)
    requires lo <= i < hi && Spent(k, f, k1, f1, Region(lo, i), true) && Spent(k1, f1, k2, f2, PagePath(i), ok)
    ensures if ok then Spent(k, f, k2, f2, Region(lo, i + 1), true) else !Enough(f, Region(lo, hi), k)
  {
    hide Spent, Enough, PagePath;
    SpentTwice(k, f, k1, f1, k2, f2, Region(lo, i), PagePath(i), ok);
    RegionGrows(lo, i + 1, hi);
    if !ok { TooFewNow(k, f, k2, f2, Region(lo, i + 1), Region(lo, hi)); }
  }

  // uvmcopy comes to page i of the pages up to hi.
  lemma NodesSpent(k: set<Slot>, f: int, k1: set<Slot>, f1: int, k2: set<Slot>, f2: int, i: nat, hi: nat, ok: bool)
    requires i < hi && Spent(k, f, k1, f1, Nodes(0, i), true) && Spent(k1, f1, k2, f2, Path(i), ok)
    ensures if ok then Spent(k, f, k2, f2, Nodes(0, i + 1), true) else !Enough(f, Nodes(0, hi), k)
  {
    hide Spent, Enough, Path;
    SpentTwice(k, f, k1, f1, k2, f2, Nodes(0, i), Path(i), ok);
    NodesGrow(0, i + 1, hi);
    if !ok { TooFewNow(k, f, k2, f2, Nodes(0, i + 1), Nodes(0, hi)); }
  }

  // The two kernel pages have the same interior pages above them.
  lemma SamePath()
    ensures Path(TRAPFRAME) == Path(TRAMPOLINE)
  {
  }

  lemma SkeletonSize()
    ensures |Skeleton() - {}| == |Skeleton()| == 4 && forall f :: Enough(f, Skeleton(), {}) <==> f >= 4
  {
    assert Skeleton() == {Tf, Root, NodeAt(2, TRAMPOLINE), NodeAt(1, TRAMPOLINE)};
    assert Skeleton() - {} == Skeleton();
  }

  lemma NoSkeleton()
    ensures !Enough(0, Skeleton(), {})
  {
    SkeletonSize();
  }

  // allocproc: the trapframe, then the page table.
  lemma SkeletonSpent(f: nat, f1: int, k2: set<Slot>, f2: nat, ok: bool)
    requires f1 == f - 1 && Spent({Tf}, f1, k2, f2, {Root} + Path(TRAMPOLINE), ok)
    ensures ok <==> Enough(f, Skeleton(), {})
    ensures ok ==> Spent({}, f, k2, f2, Skeleton(), true)
  {
    var rest := {Root} + Path(TRAMPOLINE);
    PathNodes(TRAMPOLINE);
    assert Skeleton() - {} == (rest - {Tf}) + {Tf};
    assert {Tf} + rest == {} + Skeleton();
  }

  // fork: a new process, then the interior pages above n user pages.
  lemma ForkSpent(f: int, k1: set<Slot>, f1: int, k2: set<Slot>, f2: nat, n: nat, ok: bool)
    requires Spent({}, f, k1, f1, Skeleton(), true) && (ok <==> Enough(f1, Nodes(0, n), k1))
    requires ok ==> Spent(k1, f1, k2, f2, Nodes(0, n), true)
    ensures ok <==> f >= |Skeleton() + Nodes(0, n)|
    ensures ok ==> f2 == f - |Skeleton() + Nodes(0, n)|
  {
    hide Skeleton, Nodes;
    var all := Skeleton() + Nodes(0, n);
    assert all - {} == all;
    if !ok { Short(k1, f1, Nodes(0, n)); }
    SpentTwice({}, f, k1, f1, k2, f2, Skeleton(), Nodes(0, n), ok);
  }

  // Interior pages, counted without the leaves.
  lemma SpentNodes(m: Slots, f: int, m': Slots, f': int, v: nat, ok: bool)
    requires Spent(m.Keys, f, m'.Keys, f', Path(v), ok)
    ensures Spent(NodeKeys(m), f, NodeKeys(m'), f', Path(v), ok)
  {
    PathNodes(v);
    hide Path;
    assert Path(v) - NodeKeys(m) == Path(v) - m.Keys;
    if ok { assert NodeKeys(m') == NodeKeys(m) + Path(v); }
  }

  lemma WithoutLeaf(m: Slots, v: nat)
    ensures NodeKeys(m - {Leaf(v)}) == NodeKeys(m)
  {
  }

  // No root, no table.
  lemma RootShort(f: int, k: set<Slot>, f': int)
    requires Spent({Tf}, f, k, f', {Root}, false)
    ensures forall k', f' :: Spent({Tf}, f, k', f', {Root} + Path(TRAMPOLINE), false)
  {
    TooFewNow({Tf}, f, k, f', {Root}, {Root} + Path(TRAMPOLINE));
    Short({Tf}, f, {Root} + Path(TRAMPOLINE));
  }

  lemma LeafNodes(m: Slots, v: nat, e: Pte)
    ensures NodeKeys(m[Leaf(v) := e]) == NodeKeys(m)
  {
  }

  lemma {:induction false} RegionGrows(lo: nat, i: nat, hi: nat)
    requires i <= hi
    ensures Region(lo, i) <= Region(lo, hi)
  {
    hide PagePath;
    if i < hi && lo < hi { RegionGrows(lo, i, hi - 1); }
  }

  lemma {:induction false} NodesGrow(lo: nat, i: nat, hi: nat)
    requires i <= hi
    ensures Nodes(lo, i) <= Nodes(lo, hi)
  {
    hide Path;
    if i < hi && lo < hi { NodesGrow(lo, i, hi - 1); }
  }

  // f frames run out before the first interior page that pages lo to hi lack.
  ghost predicate NothingStays(f: int, k: set<Slot>, lo: nat, hi: nat) {
    forall v: nat :: lo <= v < hi && !(Path(v) <= k) ==> f <= v - lo + 1
  }

  ghost function Leaves(lo: nat, hi: nat): set<Slot> { if hi <= lo then {} else Leaves(lo, hi - 1) + {Leaf(hi - 1)} }

  lemma {:induction false} LeavesAre(lo: nat, hi: nat)
    requires lo <= hi
    ensures |Leaves(lo, hi)| == hi - lo && forall t :: t in Leaves(lo, hi) <==> t.Leaf? && lo <= t.v < hi
  {
    if lo < hi {
      LeavesAre(lo, hi - 1);
      var l := Leaves(lo, hi - 1);
      assert Leaves(lo, hi) == l + {Leaf(hi - 1)} && Leaf(hi - 1) !in l;
      hide Leaves;
    }
  }

  lemma {:induction false} RegionParts(lo: nat, hi: nat)
    ensures Region(lo, hi) == Nodes(lo, hi) + Leaves(lo, hi)
  {
    hide Path;
    if lo < hi { RegionParts(lo, hi - 1); }
  }

  lemma {:induction false} NodesWithin(lo: nat, hi: nat, k: set<Slot>)
    ensures Nodes(lo, hi) <= k <==> forall v: nat :: lo <= v < hi ==> Path(v) <= k
    ensures forall t :: t in Nodes(lo, hi) ==> !t.Leaf?
  {
    if lo < hi {
      PathNodes(hi - 1);
      hide Path;
      NodesWithin(lo, hi - 1, k);
      assert Nodes(lo, hi) == Nodes(lo, hi - 1) + Path(hi - 1);
    }
  }

  // Pages up to v that lack an interior page have cost more than a frame each.
  lemma GapCosts(k: set<Slot>, lo: nat, v: nat, i: nat)
    requires lo <= v < i && !(Path(v) <= k) && forall u: nat :: lo <= u < i ==> Leaf(u) !in k
    ensures |Region(lo, i) - k| >= v - lo + 2
  {
    hide Path, Region, Leaves;
    var x :| x in Path(v) && x !in k;
    PathNodes(v);
    LeavesAre(lo, v + 1);
    InRegion(lo, v, i);
    forall t | t in Leaves(lo, v + 1) ensures t in Region(lo, i) { InRegion(lo, t.v, i); }
    SubsetSize(Leaves(lo, v + 1) + {x}, Region(lo, i) - k);
  }

  lemma {:induction false} InRegion(lo: nat, v: nat, hi: nat)
    requires lo <= v < hi
    ensures Path(v) <= Region(lo, hi) && Leaf(v) in Region(lo, hi)
  {
    hide Path;
    if v < hi - 1 { InRegion(lo, v, hi - 1); }
  }

  lemma NoGapCosts(k: set<Slot>, lo: nat, i: nat)
    requires lo <= i && Nodes(lo, i) <= k && forall u: nat :: lo <= u < i ==> Leaf(u) !in k
    ensures |Region(lo, i) - k| == i - lo
  {
    RegionParts(lo, i);
    LeavesAre(lo, i);
    hide Region, Nodes, Leaves;
    assert Region(lo, i) - k == Leaves(lo, i);
  }

  lemma NodesAdded(m: Slots, mt: Slots, nodes: set<Slot>, leaves: set<Slot>)
    requires mt.Keys == m.Keys + (nodes + leaves)
    requires (forall t :: t in nodes ==> !t.Leaf?) && (forall t :: t in leaves ==> t.Leaf?)
    ensures NodeKeys(mt) == NodeKeys(m) + nodes
  {
    forall t ensures t in NodeKeys(mt) <==> t in NodeKeys(m) + nodes {
      assert t in mt <==> t in mt.Keys;
    }
  }

  // uvmalloc has been through pages lo to i: no interior page was added exactly if none was missing.
  lemma StaysBefore(m: Slots, f: int, mt: Slots, ft: nat, lo: nat, i: nat)
    requires lo <= i && Spent(m.Keys, f, mt.Keys, ft, Region(lo, i), true)
    requires forall u: nat :: lo <= u <= i ==> Leaf(u) !in m
    ensures NodeKeys(mt) == NodeKeys(m) + Nodes(lo, i)
    ensures Nodes(lo, i) <= m.Keys ==> ft == f - (i - lo)
    ensures !(Nodes(lo, i) <= m.Keys) ==> !NothingStays(f, m.Keys, lo, i)
  {
    hide Path, Region, Nodes, Leaves;
    NodesWithin(lo, i, m.Keys);
    RegionParts(lo, i);
    LeavesAre(lo, i);
    NodesAdded(m, mt, Nodes(lo, i), Leaves(lo, i));
    hide NodeKeys;
    if Nodes(lo, i) <= m.Keys {
      NoGapCosts(m.Keys, lo, i);
    } else {
      var v: nat :| lo <= v < i && !(Path(v) <= m.Keys);
      GapCosts(m.Keys, lo, v, i);
    }
  }

  /** A growth that is refused at page i leaves the table as it was, but for interior pages: it leaves
      none exactly if the frames ran out before the first one that was missing. */
  lemma StaysExactly(m: Slots, f: int, mt: Slots, ft: nat, mu: Slots, lo: nat, i: nat, hi: nat)
    requires lo <= i < hi && Spent(m.Keys, f, mt.Keys, ft, Region(lo, i), true)
    requires !Enough(ft, PagePath(i), mt.Keys) && forall u: nat :: lo <= u <= i ==> Leaf(u) !in m
    requires mt.Keys <= mu.Keys && |mu.Keys| == |mt.Keys| + if ft == 0 then 0 else ft - 1
    requires forall t :: t in mu && t !in mt ==> !t.Leaf?
    ensures NodeKeys(mu) == NodeKeys(m) <==> NothingStays(f, m.Keys, lo, hi)
  {
    StaysBefore(m, f, mt, ft, lo, i);
    SameNodes(mt, mu);
    NodesWithin(lo, i, m.Keys);
    PathNodes(i);
    hide Path, Region;
    if !(Nodes(lo, i) <= m.Keys) {
      assert !NothingStays(f, m.Keys, lo, hi);
      assert NodeKeys(mu) != NodeKeys(m);
    } else {
      assert NodeKeys(mt) == NodeKeys(m);
      if ft <= 1 {
        assert NothingStays(f, m.Keys, lo, hi);
      } else {
        LeafOnly(mt.Keys, i);
        assert !(Path(i) <= mt.Keys);
        assert !(Path(i) <= m.Keys);
      }
    }
  }

  // Added interior pages show.
  lemma SameNodes(mt: Slots, mu: Slots)
    requires mt.Keys <= mu.Keys && forall t :: t in mu && t !in mt ==> !t.Leaf?
    ensures NodeKeys(mt) <= NodeKeys(mu) && (NodeKeys(mu) == NodeKeys(mt) <==> |mu.Keys| == |mt.Keys|)
  {
    if |mu.Keys| == |mt.Keys| {
      if t :| t in mu && t !in mt { SubsetSize(mt.Keys + {t}, mu.Keys); }
    } else {
      assert mu.Keys != mt.Keys;
      var t :| t in mu.Keys && t !in mt.Keys;
      assert t in NodeKeys(mu) && t !in NodeKeys(mt);
    }
  }

  lemma LeafOnly(k: set<Slot>, i: nat)
    ensures Path(i) <= k ==> |PagePath(i) - k| <= 1
  {
    if Path(i) <= k {
      SubsetSize(PagePath(i) - k, {Leaf(i)});
    }
  }

  // A table with no interior page above page 0 needs three frames for that page.
  lemma FirstPage(m: Slots)
    requires NodeKeys(m) == Skeleton() && Leaf(0) !in m
    ensures !Enough(2, Region(0, 1), m.Keys) && !NothingStays(2, m.Keys, 0, 1)
  {
    assert Path(0) == {L1(0), L0(0)};
    assert L1(0) !in NodeKeys(m) && L0(0) !in NodeKeys(m);
    assert Region(0, 0) == {};
    assert Region(0, 1) - m.Keys == {L1(0), L0(0), Leaf(0)};
  }

  // How many pages of a table cover n entries, k to a page; page j is one of them if Covers.
  function Covering(n: nat, k: nat): nat
    requires k > 0
  {
    (n + k - 1) / k
  }

  predicate Covers(j: nat, n: nat, k: nat) { j * k < n }

  lemma CoverNext(n: nat, k: nat)
    requires k == NPTE || k == NPTE * NPTE
    ensures Covering(n + 1, k) == Covering(n, k) + if Covers(n / k, n, k) then 0 else 1
    ensures forall j: nat :: Covers(j, n + 1, k) <==> Covers(j, n, k) || j == n / k
  {
    var q, r := n / k, n % k;
    assert n == q * k + r;
    assert Covers(q, n, k) <==> r != 0;
    assert Covering(n + 1, k) == q + 1;
    assert Covering(n, k) == if r == 0 then q else q + 1;
  }

  ghost predicate NodesAre(n: nat) {
    forall t :: t in Nodes(0, n) <==> match t
      case L0(j) => Covers(j, n, NPTE)
      case L1(i) => Covers(i, n, NPTE * NPTE)
      case _ => false
  }

  /** The interior pages above n user pages: one per 512 pages, and one per 512 of those. */
  lemma {:induction false} NodesCount(n: nat)
    ensures |Nodes(0, n)| == Covering(n, NPTE) + Covering(n, NPTE * NPTE) && NodesAre(n)
  {
    if n > 0 {
      NodesCount(n - 1);
      NodesNext(n - 1);
    }
  }

  lemma NodesNext(n: nat)
    requires |Nodes(0, n)| == Covering(n, NPTE) + Covering(n, NPTE * NPTE) && NodesAre(n)
    ensures |Nodes(0, n + 1)| == Covering(n + 1, NPTE) + Covering(n + 1, NPTE * NPTE) && NodesAre(n + 1)
  {
    CoverNext(n, NPTE);
    CoverNext(n, NPTE * NPTE);
    NodesPlus(n);
    NodesNextAre(n);
    var i, j := n / (NPTE * NPTE), n / NPTE;
    TwoMore(Nodes(0, n), L1(i), L0(j));
    hide Covers, Covering, Nodes;
    assert L1(i) in Nodes(0, n) <==> Covers(i, n, NPTE * NPTE);
    assert L0(j) in Nodes(0, n) <==> Covers(j, n, NPTE);
    hide NodesAre;
  }

  lemma NodesPlus(n: nat)
    ensures Nodes(0, n + 1) == Nodes(0, n) + {L1(n / (NPTE * NPTE))} + {L0(n / NPTE)}
  {
  }

  lemma NodesNextAre(n: nat)
    requires NodesAre(n)
    ensures NodesAre(n + 1)
  {
    CoverNext(n, NPTE);
    CoverNext(n, NPTE * NPTE);
    NodesPlus(n);
    hide Covers, Covering, Nodes;
  }

  lemma TwoMore(s: set<Slot>, a: Slot, b: Slot)
    requires a != b
    ensures |s + {a} + {b}| == |s| + (if a in s then 0 else 1) + if b in s then 0 else 1
  {
    assert a in s ==> s + {a} == s;
    assert b in s ==> s + {a} + {b} == s + {a};
  }

  /** A fork of n user pages takes four frames and the interior pages, and none for the user pages. */
  lemma ForkPrice(n: nat)
    requires n <= NFRAME
    ensures |Skeleton() + Nodes(0, n)| == 4 + Covering(n, NPTE) + Covering(n, NPTE * NPTE)
  {
    NodesCount(n);
    assert !Covers(TRAMPOLINE / (NPTE * NPTE), n, NPTE * NPTE) && !Covers(TRAMPOLINE / NPTE, n, NPTE);
    assert Skeleton() * Nodes(0, n) == {};
    assert Skeleton() == {Tf, Root, L1(TRAMPOLINE / (NPTE * NPTE)), L0(TRAMPOLINE / NPTE)};
  }
}
