/** The virtual memory code: kernel/kalloc.c, kernel/vm.c, the page fault handler
    of kernel/trap.c, and fork, growproc and freeproc of kernel/proc.c. */
module Vm {
  import opened Options
  import opened Frames
  import opened Cow
  import opened Cost
  import opened Spending
  import opened Eager

  // An address space seen through its page table.
  ghost predicate Fits(s: State, p: nat, m: Mem) {
    && p in s.procs && m.sz == s.procs[p].sz && |m.pages| == Pages(m.sz)
    && forall v: nat :: v < |m.pages| ==> Look(s, p, v) == Some(m.pages[v])
  }

  ghost predicate Agree(s: State, mem: Machine) {
    mem.Keys == s.procs.Keys && forall p :: p in mem ==> Fits(s, p, mem[p])
  }

  ghost predicate Sound(s: State, first: nat, tramp: nat) {
    Inv(s, first) && Quiet(s, first) && |s.refs| <= NFRAME && forall p :: p in s.procs ==> Whole(s.procs[p], tramp)
  }

  // There are frames for p to grow by n bytes: for the new pages and the interior pages they lack.
  ghost predicate CanGrow(s: State, p: nat, n: int) {
    n > 0 && p in s.procs ==>
      Enough(|s.free|, Region(Pages(s.procs[p].sz), Pages(s.procs[p].sz + n)), s.procs[p].slots.Keys)
  }

  // The frames run out before p's growth by n bytes comes to an interior page that the table lacks.
  ghost predicate GrowthStaysOut(s: State, p: nat, n: int) {
    n > 0 && p in s.procs ==>
      NothingStays(|s.free|, s.procs[p].slots.Keys, Pages(s.procs[p].sz), Pages(s.procs[p].sz + n))
  }

  // uvmalloc came as far as page i, and u is what it has undone to get back to w.
  lemma GrowthRefused(s: State, t: State, u: State, w: State, first: nat, p: nat, lo: nat, i: nat, hi: nat, blank: View)
    requires Inv(s, first) && Growing(s, t, first, p, lo, i, blank) && Grew(t, u, first, p) && lo <= i < hi
    requires i < TRAPFRAME && Mapped(s.procs[p].slots, lo, 0, 0)
    requires Spent(s.procs[p].slots.Keys, |s.free|, t.procs[p].slots.Keys, |t.free|, Region(lo, i), true)
    requires Spent(t.procs[p].slots.Keys, |t.free|, u.procs[p].slots.Keys, |u.free|, PagePath(i), false)
    requires |u.procs[p].slots.Keys| == |t.procs[p].slots.Keys| + if t.free == [] then 0 else |t.free| - 1
    requires Reshaped(s, w, first, p, lo) && Mapped(w.procs[p].slots, lo, 0, 0)
    requires NodeKeys(w.procs[p].slots) == NodeKeys(u.procs[p].slots)
    ensures Refunded(s, w, first) <==> NothingStays(|s.free|, s.procs[p].slots.Keys, lo, hi)
  {
    hide Inv, Look, Shaped, Region, PagePath, NothingStays, Refunded;
    var m := s.procs[p].slots;
    NotYetFrom(m, lo, i);
    StaysExactly(m, |s.free|, t.procs[p].slots, |t.free|, u.procs[p].slots, lo, i, hi);
    ReshapedBack(s, w, first, p, lo);
    RefundedExactly(s, w, first, p);
    NodesKept(s, w, p);
  }

  lemma NotYetFrom(m: Slots, lo: nat, i: nat)
    requires Mapped(m, lo, 0, 0) && i < TRAPFRAME
    ensures forall u: nat :: lo <= u <= i ==> Leaf(u) !in m
  {
  }

  lemma NodesKept(s: State, w: State, p: nat)
    requires OnlyInterior(s, w, p) && p in s.procs
    ensures (forall t :: t in w.procs[p].slots && !t.Leaf? ==> t in s.procs[p].slots)
      <==> NodeKeys(w.procs[p].slots) == NodeKeys(s.procs[p].slots)
  {
    assert forall t :: (Has(s, p, t) <==> t in s.procs[p].slots) && (Has(w, p, t) <==> t in w.procs[p].slots);
    if NodeKeys(w.procs[p].slots) == NodeKeys(s.procs[p].slots) {
      forall t | t in w.procs[p].slots && !t.Leaf? ensures t in s.procs[p].slots {
        assert t in NodeKeys(w.procs[p].slots);
      }
    }
  }

  // Whether the hardware would let p store to page v.
  predicate Writable(procs: map<nat, Proc>, p: nat, v: nat) {
    p in procs && Leaf(v) in procs[p].slots && procs[p].slots[Leaf(v)].u && procs[p].slots[Leaf(v)].w
  }

  /** When each operation succeeds: what a caller could tell from the free list, the process
      table and the page tables before the call, and for a copyout how far it gets. */
  ghost predicate Justified(s: State, mem: Machine, op: Op, out: Outcome) {
    match op
    case Spawn => out.ok <==> Vacancy(s) && |s.free| >= 4
    case Fork(p) => out.ok <==> p in s.procs && Vacancy(s) && |s.free| >= ForkCost(s.procs[p].sz)
    case Grow(p, n) => out.ok <==> p in s.procs && -0x8000_0000 <= n < 0x8000_0000 && CanGrow(s, p, n)
    case Store(p, va, b) => out.ok <==>
      p in mem && Storable(mem[p], va) && (Writable(s.procs, p, va / PGSIZE) || (va != 0 && s.free != []))
    case CopyOut(p, va, data) => p in s.procs ==> CopyReaches(s, p, va, |data|, out.wrote)
    case _ => true
  }

  // p shares page v copy-on-write, so that a private copy costs a frame; an unshared one pays for its own.
  predicate Shares(s: State, p: nat, v: nat) {
    Has(s, p, Leaf(v)) && var e := Entry(s, p, Leaf(v)); e.cow && e.frame < |s.counter| && s.counter[e.frame] > 1
  }

  // The frames that copies of pages lo to v use up.
  ghost function Drain(s: State, p: nat, lo: nat, v: nat): nat {
    if v <= lo then 0 else Drain(s, p, lo, v - 1) + if Shares(s, p, v - 1) then 1 else 0
  }

  /** Whether a copyout from page lo on gets through page v, seen before it starts. */
  ghost predicate PageReady(s: State, p: nat, lo: nat, v: nat) {
    && v < TRAPFRAME && Has(s, p, Leaf(v))
    && var e := Entry(s, p, Leaf(v));
       e.u && (e.w || (e.cow && |s.free| > Drain(s, p, lo, v)))
  }

  /** A copyout of len bytes to va writes exactly the first wrote: it gets through the pages of those,
      and not through the next, or va is 0. */
  ghost predicate CopyReaches(s: State, p: nat, va: nat, len: nat, wrote: nat) {
    && (wrote > 0 ==> va != 0)
    && (wrote > 0 ==> forall v: nat :: va / PGSIZE <= v && v * PGSIZE < va + wrote ==> PageReady(s, p, va / PGSIZE, v))
    && (wrote < len ==> va == 0 || !PageReady(s, p, va / PGSIZE, (va + wrote) / PGSIZE))
  }

  // Between pages lo and c, copyout has used up what their copies cost, and the pages from c on are as before.
  ghost predicate Ahead(s: State, t: State, p: nat, lo: nat, c: nat) {
    && |t.free| == |s.free| - Drain(s, p, lo, c) && |t.counter| == |s.counter|
    && forall u: nat :: c <= u < TRAPFRAME ==> Untouched(s, t, p, u)
  }

  ghost predicate Untouched(s: State, t: State, p: nat, u: nat) {
    && (Has(t, p, Leaf(u)) <==> Has(s, p, Leaf(u)))
    && (Has(s, p, Leaf(u)) ==> Entry(t, p, Leaf(u)) == Entry(s, p, Leaf(u)) && Shares(t, p, u) == Shares(s, p, u))
  }

  // What the fault handler does to the state when it succeeds.
  ghost predicate Faulted(s: State, t: State, first: nat, p: nat, v: nat) {
    if Writable(s.procs, p, v) then t == s
    else
      && Inv(s, first) && s.free != [] && Has(s, p, Leaf(v)) && Entry(s, p, Leaf(v)).cow && v < TRAPFRAME
      && t == Copied(s, first, p, v)
  }

  lemma AheadFaulted(s: State, t: State, u: State, first: nat, p: nat, lo: nat, c: nat)
    requires Inv(t, first) && Ahead(s, t, p, lo, c) && Faulted(t, u, first, p, c) && lo <= c < TRAPFRAME
    ensures Ahead(s, u, p, lo, c + 1)
  {
    if Writable(t.procs, p, c) {
      assert Untouched(s, t, p, c);
      assert Has(t, p, Leaf(c));
    } else {
      CopiedCosts(t, first, p, c);
      assert Untouched(s, t, p, c);
      hide Inv, Shares, Copied;
      forall v: nat | c + 1 <= v < TRAPFRAME ensures Untouched(s, u, p, v) {
        assert Untouched(s, t, p, v);
        CopiedElsewhere(t, first, p, c, v);
      }
    }
  }

  lemma CopiedCosts(s: State, first: nat, p: nat, v: nat)
    requires Inv(s, first) && s.free != [] && Has(s, p, Leaf(v)) && v < TRAPFRAME && Entry(s, p, Leaf(v)).cow
    ensures |Copied(s, first, p, v).free| == |s.free| - if Shares(s, p, v) then 1 else 0
    ensures |Copied(s, first, p, v).counter| == |s.counter|
  {
    CopiedIs(s, first, p, v);
    LeafInPool(s, first, p, v);
    CounterBound(s, first, Entry(s, p, Leaf(v)).frame);
  }

  lemma CopiedElsewhere(s: State, first: nat, p: nat, v: nat, u: nat)
    requires Inv(s, first) && s.free != [] && Has(s, p, Leaf(v)) && v < u < TRAPFRAME && Entry(s, p, Leaf(v)).cow
    ensures Untouched(s, Copied(s, first, p, v), p, u)
  {
    CopiedIs(s, first, p, v);
    LeafInPool(s, first, p, v);
    if Has(s, p, Leaf(u)) {
      FramesApart(s, first, p, v, u);
      LeafInPool(s, first, p, u);
      assert Entry(s, p, Leaf(u)).frame != Head(s, first);
    }
    hide Inv;
  }

  lemma ReadyExactly(s: State, t: State, first: nat, tramp: nat, mem: Machine, p: nat, lo: nat, v: nat, va: nat)
    requires Sound(t, first, tramp) && Agree(t, mem) && p in t.procs && Ahead(s, t, p, lo, v) && va / PGSIZE == v
    ensures p in mem
    ensures PageReady(s, p, lo, v) <==> Storable(mem[p], va) && (Writable(t.procs, p, v) || t.free != [])
  {
    Seen(t, first, tramp, mem, p, v);
    Ready(t, first, tramp, mem, p);
    hide Inv, Look, Sound, Agree;
    if v < TRAPFRAME { assert Untouched(s, t, p, v); }
  }

  lemma AheadStart(s: State, p: nat, lo: nat)
    ensures Ahead(s, s, p, lo, lo)
  {
  }

  lemma AheadPoked(s: State, t: State, u: State, p: nat, lo: nat, c: nat)
    requires Ahead(s, t, p, lo, c) && u == t.(page := u.page)
    ensures Ahead(s, u, p, lo, c)
  {
    forall v: nat | c <= v < TRAPFRAME ensures Untouched(s, u, p, v) { assert Untouched(s, t, p, v); }
  }

  lemma BelowTop(s: State, p: nat, lo: nat, v: nat)
    requires PageReady(s, p, lo, v)
    ensures v < TRAPFRAME
  {
  }

  // The process table has an unused entry.
  ghost predicate Vacancy(s: State) { exists q: nat :: q < NPROC && q !in s.procs }

  // The frames a fork takes: none for the user pages, which are shared.
  function ForkCost(sz: nat): nat { 4 + Covering(Pages(sz), NPTE) + Covering(Pages(sz), NPTE * NPTE) }

  lemma PriceOf(s: State, first: nat, tramp: nat, p: nat)
    requires Sound(s, first, tramp) && p in s.procs
    ensures |Skeleton() + Nodes(0, Pages(s.procs[p].sz))| == ForkCost(s.procs[p].sz)
    ensures forall f :: !Enough(f, Skeleton(), {}) ==> f < ForkCost(s.procs[p].sz)
  {
    var n := Pages(s.procs[p].sz);
    assert n <= NFRAME by {
      hide Inv;
      assert Whole(s.procs[p], tramp);
      PagesBounded(s, first, p, n);
    }
    hide Inv, Skeleton, Nodes;
    ForkPrice(n);
    forall f | !Enough(f, Skeleton(), {}) ensures f < ForkCost(s.procs[p].sz) {
      TooFew({}, f, Skeleton(), Skeleton() + Nodes(0, n));
      assert (Skeleton() + Nodes(0, n)) - {} == Skeleton() + Nodes(0, n);
    }
  }

  lemma GrewParts(s: State, g: State, first: nat, p: nat)
    requires Grew(s, g, first, p)
    ensures Inv(g, first) && p in g.procs && |g.refs| == |g.counter| == |g.page| == |s.refs|
    ensures forall v: nat :: Leaf(v) in g.procs[p].slots ==> p in s.procs && Leaf(v) in s.procs[p].slots
  {
  }

  lemma Ready(s: State, first: nat, tramp: nat, mem: Machine, p: nat)
    requires Sound(s, first, tramp) && Agree(s, mem) && p in s.procs
    ensures Inv(s, first) && Quiet(s, first) && |s.refs| == |s.counter| == |s.page| <= NFRAME
    ensures p in mem && mem[p].sz == s.procs[p].sz && |mem[p].pages| == Pages(mem[p].sz) <= TRAPFRAME
    ensures Shaped(s.procs[p].slots) && Root in s.procs[p].slots && Mapped(s.procs[p].slots, Pages(mem[p].sz), 0, 0)
    ensures forall v: nat :: v < |mem[p].pages| ==> Look(s, p, v) == Some(mem[p].pages[v])
  {
    assert Fits(s, p, mem[p]) && Whole(s.procs[p], tramp);
  }

  // An operation on p's address space is over.
  lemma Settled(s: State, t: State, first: nat, tramp: nat, mem: Machine, p: nat, lo: nat, m: Mem)
    requires Sound(s, first, tramp) && Agree(s, mem) && Reshaped(s, t, first, p, lo)
    requires Mapped(t.procs[p].slots, Pages(m.sz), 0, 0) && Pages(m.sz) <= TRAPFRAME && |m.pages| == Pages(m.sz)
    requires forall v: nat :: v < |m.pages| ==> Look(t, p, v) == Some(m.pages[v])
    ensures Sound(Sized(t, p, m.sz), first, tramp) && Agree(Sized(t, p, m.sz), mem[p := m])
  {
    hide Inv, Look, Shaped, Mapped, Whole, Pages, KeptTop;
    SizedKeeps(t, first, p, m.sz);
    var s', mem' := Sized(t, p, m.sz), mem[p := m];
    WholeKept(s.procs[p], s'.procs[p], tramp, lo);
    forall o | o in mem' ensures Fits(s', o, mem'[o]) {
      assert o != p ==> Fits(s, o, mem[o]);
    }
  }

  lemma WholeKept(pr: Proc, pr': Proc, tramp: nat, lo: nat)
    requires Whole(pr, tramp) && KeptTop(pr.slots, pr'.slots, lo) && Shaped(pr'.slots)
    requires Mapped(pr'.slots, Pages(pr'.sz), 0, 0) && Pages(pr'.sz) <= TRAPFRAME
    ensures Whole(pr', tramp)
  {
  }

  // A page of zeros that a user may read, and write or execute as asked for.
  predicate BlankPage(page: Option<View>, w: bool, x: bool) {
    page.Some? && AllZero(page.value.bytes) && page.value.r && page.value.u && page.value.w == w && page.value.x == x
  }

  lemma BlankView(w: bool, x: bool)
    ensures BlankPage(Some(View(Filled(0), true, w, x, true)), w, x)
  {
    ZeroFilled();
  }

  // uvmalloc has added pages lo up to i.
  ghost predicate Growing(s: State, t: State, first: nat, p: nat, lo: nat, i: nat, blank: View) {
    && Reshaped(s, t, first, p, lo) && Mapped(t.procs[p].slots, i, 0, 0) && Root in t.procs[p].slots
    && |t.refs| <= NFRAME
    && forall v: nat :: lo <= v < i ==> Look(t, p, v) == Some(blank)
  }

  lemma GrowingStart(s: State, first: nat, p: nat, lo: nat, blank: View)
    requires Inv(s, first) && p in s.procs && Shaped(s.procs[p].slots) && Root in s.procs[p].slots
    requires |s.page| <= NFRAME && Mapped(s.procs[p].slots, lo, 0, 0)
    ensures Growing(s, s, first, p, lo, lo, blank) && Reshaped(s, s, first, p, lo)
  {
    ReshapedNothing(s, first, p, lo);
  }

  lemma GrowingBound(s: State, t: State, first: nat, p: nat, lo: nat, i: nat, blank: View)
    requires Growing(s, t, first, p, lo, i, blank) && lo <= i <= TRAPFRAME
    ensures Inv(t, first) && p in t.procs && Shaped(t.procs[p].slots) && Root in t.procs[p].slots
    ensures i < TRAPFRAME && Mapped(t.procs[p].slots, i, 0, 0)
  {
    assert forall v: nat :: v < i ==> Has(t, p, Leaf(v));
    PagesBounded(t, first, p, i);
  }

  lemma GrowingStopped(s: State, t: State, u: State, first: nat, p: nat, lo: nat, i: nat, blank: View)
    requires Growing(s, t, first, p, lo, i, blank) && Grew(t, u, first, p) && lo <= i < TRAPFRAME
    ensures Reshaped(s, u, first, p, lo) && Mapped(u.procs[p].slots, i, 0, 0)
    ensures Inv(u, first) && p in u.procs && Shaped(u.procs[p].slots)
    ensures Pages(i * PGSIZE) == i && Pages(lo * PGSIZE) == lo
  {
    hide Inv, Look, Shaped, Mapped;
    GrewReshaped(t, u, first, p, lo, i);
    ReshapedTwice(s, t, u, first, p, lo);
  }

  lemma GrowingNext(s: State, t: State, u: State, first: nat, p: nat, lo: nat, i: nat, blank: View)
    requires Growing(s, t, first, p, lo, i, blank) && lo <= i < TRAPFRAME
    requires Edited(t, u, first, p, i) && Shaped(u.procs[p].slots) && Mapped(u.procs[p].slots, i + 1, 0, 0)
    requires Look(u, p, i) == Some(blank)
    ensures Growing(s, u, first, p, lo, i + 1, blank)
  {
    hide Inv, Look, Shaped, Mapped;
    Extended(s, t, u, first, p, i, lo);
  }

  lemma GrowingDone(s: State, t: State, first: nat, p: nat, lo: nat, i: nat, blank: View)
    requires Growing(s, t, first, p, lo, i, blank)
    ensures Reshaped(s, t, first, p, lo) && Mapped(t.procs[p].slots, i, 0, 0)
    ensures forall v: nat :: lo <= v < i ==> Look(t, p, v) == Some(blank)
  {
  }

  // The address space was n bytes and its table is now that of sz bytes.
  ghost predicate Sizing(s: State, t: State, first: nat, p: nat, n: nat, sz: nat) {
    && Reshaped(s, t, first, p, if sz < n then Pages(sz) else Pages(n))
    && Mapped(t.procs[p].slots, Pages(sz), 0, 0) && Pages(sz) <= TRAPFRAME
    && forall v: nat :: Pages(n) <= v < Pages(sz) ==> Look(t, p, v) == Some(Zeroed())
  }

  // growproc is over: the address space was resized to sz.
  lemma Regrown(s: State, t: State, first: nat, tramp: nat, mem: Machine, p: nat, sz: nat)
    requires Sound(s, first, tramp) && Agree(s, mem) && p in mem && Sizing(s, t, first, p, mem[p].sz, sz)
    ensures p in t.procs
    ensures Sound(Sized(t, p, sz), first, tramp) && Agree(Sized(t, p, sz), mem[p := Resized(mem[p], sz)])
  {
    hide Inv, Look, Shaped, Mapped, Whole, KeptTop;
    var m, m' := mem[p], Resized(mem[p], sz);
    assert Fits(s, p, m);
    assert if sz < m.sz then Pages(sz) <= Pages(m.sz) else Pages(m.sz) <= Pages(sz);
    Settled(s, t, first, tramp, mem, p, if sz < m.sz then Pages(sz) else Pages(m.sz), m');
  }

  lemma SizingUp(s: State, t: State, first: nat, p: nat, n: nat, sz: nat)
    requires n <= sz && Pages(sz) <= TRAPFRAME && Reshaped(s, t, first, p, Pages(n))
      && Mapped(t.procs[p].slots, Pages(sz), 0, 0)
    requires forall v: nat :: Pages(n) <= v < Pages(sz) ==> Look(t, p, v) == Some(Zeroed())
    ensures Sizing(s, t, first, p, n, sz)
  {
  }

  lemma SizingDown(s: State, t: State, first: nat, p: nat, n: nat, sz: nat, d: int)
    requires -0x8000_0000 <= d < 0 && Pages(n) <= TRAPFRAME
    requires sz == if (n + d) % 0x1_0000_0000_0000_0000 >= n then n else (n + d) % 0x1_0000_0000_0000_0000
    requires Reshaped(s, t, first, p, Pages(sz)) && Mapped(t.procs[p].slots, Pages(sz), 0, 0)
    ensures sz == NewSize(n, d) && Sizing(s, t, first, p, n, sz)
  {
  }

  lemma NotRegrown(s: State, t: State, first: nat, tramp: nat, mem: Machine, p: nat)
    requires Sound(s, first, tramp) && Agree(s, mem) && p in mem && p in s.procs
    requires Reshaped(s, t, first, p, Pages(mem[p].sz)) && Mapped(t.procs[p].slots, Pages(mem[p].sz), 0, 0)
    ensures Sound(t, first, tramp) && Agree(t, mem) && OnlyInterior(s, t, p)
  {
    hide Inv, Look, Shaped, Mapped, Pages, KeptTop, Sound, Agree, OnlyInterior;
    Ready(s, first, tramp, mem, p);
    assert p in t.procs && t.procs[p].sz == mem[p].sz;
    Settled(s, t, first, tramp, mem, p, Pages(mem[p].sz), mem[p]);
    assert mem[p := mem[p]] == mem && Sized(t, p, mem[p].sz) == t;
    ReshapedBack(s, t, first, p, Pages(mem[p].sz));
  }

  ghost predicate Mirrors(s: State, first: nat, e: Pte, view: View) {
    && InPool(s, first, e.frame) && |s.page| == |s.refs| && |s.page[e.frame]| == PGSIZE && e.r && !(e.w && e.cow)
    && view == View(s.page[e.frame], e.r, e.w || e.cow, e.x, e.u)
  }

  // What the entry of a page says about it, and the other way round.
  lemma Seen(s: State, first: nat, tramp: nat, mem: Machine, p: nat, v: nat)
    requires Sound(s, first, tramp) && Agree(s, mem) && p in s.procs
    ensures p in mem
    ensures (v < |mem[p].pages| && mem[p].pages[v].u) <==> (Has(s, p, Leaf(v)) && Entry(s, p, Leaf(v)).u)
    ensures v < |mem[p].pages| ==>
      v < TRAPFRAME && Has(s, p, Leaf(v)) && L1(v / NPTE / NPTE) in s.procs[p].slots
      && L0(v / NPTE) in s.procs[p].slots
    ensures v < |mem[p].pages| ==> Mirrors(s, first, Entry(s, p, Leaf(v)), mem[p].pages[v])
  {
    assert Fits(s, p, mem[p]) && Whole(s.procs[p], tramp);
    if v < |mem[p].pages| {
      assert Has(s, p, Leaf(v));
      LeafInPool(s, first, p, v);
      assert Look(s, p, v) == Some(mem[p].pages[v]);
    } else if v < TRAPFRAME {
      assert !Has(s, p, Leaf(v));
    } else if Has(s, p, Leaf(v)) {
      assert v == TRAPFRAME || v == TRAMPOLINE;
    }
  }

  lemma WholeEdited(pr: Proc, pr': Proc, tramp: nat, v: nat)
    requires Whole(pr, tramp) && v < TRAPFRAME && Leaf(v) in pr.slots && pr'.slots.Keys == pr.slots.Keys
      && pr'.sz == pr.sz
    requires forall t :: t in pr.slots && t != Leaf(v) ==> pr'.slots[t] == pr.slots[t]
    requires pr'.slots[Leaf(v)].r
    ensures Whole(pr', tramp)
  {
    assert forall k :: k in pr'.slots <==> k in pr.slots;
  }

  // One page of p was replaced or written.
  lemma EditSettled(s: State, s': State, first: nat, tramp: nat, mem: Machine, p: nat, v: nat, view: View)
    requires Sound(s, first, tramp) && Agree(s, mem) && p in mem && v < |mem[p].pages|
    requires Edited(s, s', first, p, v) && Look(s', p, v) == Some(view)
    requires s'.procs[p].slots.Keys == s.procs[p].slots.Keys && Leaf(v) in s'.procs[p].slots
      && s'.procs[p].slots[Leaf(v)].r
    ensures Sound(s', first, tramp) && Agree(s', mem[p := mem[p].(pages := mem[p].pages[v := view])])
  {
    hide Inv, Look, Shaped, Mapped, Whole, Pages;
    Seen(s, first, tramp, mem, p, v);
    WholeEdited(s.procs[p], s'.procs[p], tramp, v);
    var mem' := mem[p := mem[p].(pages := mem[p].pages[v := view])];
    forall o | o in mem' ensures Fits(s', o, mem'[o]) {
      assert Fits(s, o, mem[o]);
    }
  }

  // The page looks as it did.
  lemma SameAgain(s: State, s': State, first: nat, tramp: nat, mem: Machine, p: nat, v: nat)
    requires Sound(s, first, tramp) && Agree(s, mem) && p in mem && v < |mem[p].pages| && p in s.procs
    requires Edited(s, s', first, p, v) && Look(s', p, v) == Look(s, p, v)
    requires s'.procs[p].slots.Keys == s.procs[p].slots.Keys && Leaf(v) in s'.procs[p].slots
      && s'.procs[p].slots[Leaf(v)].r
    ensures Sound(s', first, tramp) && Agree(s', mem)
  {
    hide Inv, Look, Sound, Agree, Edited;
    Ready(s, first, tramp, mem, p);
    EditSettled(s, s', first, tramp, mem, p, v, mem[p].pages[v]);
    assert mem[p].pages[v := mem[p].pages[v]] == mem[p].pages;
    assert mem[p := mem[p]] == mem;
  }

  // The handler's steps in the order it takes them.
  lemma CopiedIs(s: State, first: nat, p: nat, v: nat)
    requires Inv(s, first) && s.free != [] && Has(s, p, Leaf(v)) && v < TRAPFRAME
    ensures var e, f := Entry(s, p, Leaf(v)), Head(s, first);
      InPool(s, first, e.frame) && |s.refs| == |s.page| == |s.counter| &&
      var t := WithSlot(Taken(s, first), p, Leaf(v), e.(frame := f, w := true, cow := false));
      Copied(s, first, p, v) == Gave(t.(page := t.page[f := t.page[e.frame]]), e.frame)
        .(refs := t.refs[e.frame := t.refs[e.frame] - {At(p, Leaf(v))}][f := {At(p, Leaf(v))}])
  {
    LeafInPool(s, first, p, v);
    var e, f := Entry(s, p, Leaf(v)), Head(s, first);
    hide Inv;
    var e' := e.(frame := f, w := true, cow := false);
    assert (s.procs[p].slots - {Leaf(v)})[Leaf(v) := e'] == s.procs[p].slots[Leaf(v) := e'];
    var t := WithSlot(Taken(s, first), p, Leaf(v), e');
    var u := Gave(t.(page := t.page[f := t.page[e.frame]]), e.frame);
    assert Copied(s, first, p, v).procs == u.procs;
  }

  lemma FullMem(s: State, first: nat, tramp: nat, mem: Machine, p: nat)
    requires Sound(s, first, tramp) && Agree(s, mem) && p in s.procs
    ensures p in mem && Full(mem[p].pages)
  {
    hide Inv, Look, Sound, Agree;
    Ready(s, first, tramp, mem, p);
    forall v | 0 <= v < |mem[p].pages| ensures |mem[p].pages[v].bytes| == PGSIZE { Seen(s, first, tramp, mem, p, v); }
  }

  lemma WellMem(s: State, first: nat, tramp: nat, mem: Machine, p: nat)
    requires Sound(s, first, tramp) && Agree(s, mem) && p in s.procs
    ensures p in mem && Well(mem[p])
  {
    hide Inv, Look, Sound, Agree;
    Ready(s, first, tramp, mem, p);
    FullMem(s, first, tramp, mem, p);
  }

  lemma AllWellMem(s: State, first: nat, tramp: nat, mem: Machine)
    requires Sound(s, first, tramp) && Agree(s, mem)
    ensures AllWell(mem)
  {
    forall p | p in mem ensures Well(mem[p]) { WellMem(s, first, tramp, mem, p); }
  }

  lemma SeenResized(s: State, first: nat, tramp: nat, mem: Machine, p: nat, sz: nat)
    requires Sound(s, first, tramp) && Agree(s, mem) && p in s.procs
    ensures p in mem && Resized(mem[p], sz).sz == sz && forall a: nat :: SeenAt(mem[p], Resized(mem[p], sz), sz, a)
  {
    WellMem(s, first, tramp, mem, p);
    hide Sound, Agree, Well, SeenAt, Resized;
    forall a: nat ensures SeenAt(mem[p], Resized(mem[p], sz), sz, a) { ResizedSeen(mem[p], sz, a); }
    ResizedSeen(mem[p], sz, 0);
  }

  lemma Emptied(s: State, t: State, first: nat, p: nat)
    requires Touched(s, t, first, p) && t.procs[p].slots == map[]
    ensures Gone(s, Left(t, p), first, p)
  {
    LeaveKeeps(t, first, p);
    hide Inv, Look;
    assert Left(t, p).procs == s.procs - {p};
  }

  lemma NodedIs(s: State, first: nat, p: nat, slot: Slot)
    requires Inv(s, first) && s.free != [] && p in s.procs
    ensures var f := Head(s, first);
      var t := Taken(s, first);
      |t.page| == |t.refs| &&
      Noded(s, first, p, slot) == WithSlot(t.(page := t.page[f := Filled(0)]), p, slot,
        Node(f)).(refs := t.refs[f := {At(p, slot)}])
  {
  }

  lemma RestoredNow(s: State, first: nat)
    requires Inv(s, first)
    ensures Restored(s, s, first)
  {
  }

  lemma EnteredBeside(s: State, first: nat, q: nat)
    requires Inv(s, first) && q !in s.procs && q < NPROC
    ensures Beside(s, Entered(s, q), first, q) && Inv(Entered(s, q), first)
  {
    EnterKeeps(s, first, q);
    Sizes(s, first);
    hide Inv, Look;
  }

  lemma BesideInv(s: State, t: State, first: nat, q: nat)
    requires Beside(s, t, first, q)
    ensures Inv(t, first) && q in t.procs
  {
  }

  // A table with no user pages.
  ghost predicate Newborn(m: Slots, tramp: nat) { Shaped(m) && Root in m && Topped(m, tramp) && Mapped(m, 0, 0, 0) }

  lemma TouchedSize(s: State, t: State, first: nat, p: nat)
    requires Touched(s, t, first, p)
    ensures p in s.procs && p in t.procs && t.procs[p].sz == s.procs[p].sz
  {
  }

  lemma CopyingStart(s: State, first: nat, p: nat, q: nat)
    requires Inv(s, first) && p in s.procs && q in s.procs && p != q
    requires Shaped(s.procs[q].slots) && Mapped(s.procs[q].slots, 0, 0, 0)
    ensures Copying(s, s, first, p, q, 0)
  {
    Sizes(s, first);
    hide Inv, Look, Shaped, Mapped;
  }

  lemma CopyingParts(s: State, t: State, first: nat, p: nat, q: nat, i: nat)
    requires Copying(s, t, first, p, q, i)
    ensures Inv(t, first) && p != q && p in s.procs && q in s.procs && p in t.procs && q in t.procs
    ensures t.procs[p].slots.Keys == s.procs[p].slots.Keys
    ensures Shaped(t.procs[q].slots) && Mapped(t.procs[q].slots, i, 0, 0)
      && (i < TRAPFRAME ==> Leaf(i) !in t.procs[q].slots)
    ensures forall k :: k in s.procs[q].slots ==> k in t.procs[q].slots && t.procs[q].slots[k] == s.procs[q].slots[k]
    ensures forall v: nat :: Leaf(v) in s.procs[p].slots ==> Has(t, p, Leaf(v))
  {
    hide Inv, Look, Shaped;
  }

  // The child's table ran out of memory at page i; the parent's entry may have changed.
  lemma PageNotShared(s: State, t: State, g: State, first: nat, p: nat, q: nat, i: nat)
    requires Copying(s, t, first, p, q, i) && i < TRAPFRAME && Has(t, p, Leaf(i))
      && Grew(Softened(t, p, i), g, first, q)
    ensures Copying(s, g, first, p, q, i)
  {
    hide Inv, Look, Shaped, Mapped, Softer;
    SoftenKeeps(t, first, p, i);
    SofterNext(s.procs[p].slots, t.procs[p].slots, i);
    ChildLacks(t, Softened(t, p, i), g, first, p, q, i);
  }

  // The pages the child was given are taken away again.
  lemma CopyingBack(s: State, t: State, u: State, first: nat, p: nat, q: nat, i: nat)
    requires Copying(s, t, first, p, q, i) && Reshaped(t, u, first, q, 0) && Mapped(u.procs[q].slots, 0, 0, 0)
    requires Mapped(s.procs[q].slots, 0, 0, 0)
    ensures Copying(s, u, first, p, q, 0)
  {
    hide Inv, Look, Shaped, Softer;
  }

  const TRAPFRAME_SIZE: nat := 288
  const A0: nat := 112               // offset of the saved a0 register

  ghost predicate HasRegs(s: State, p: nat) {
    Has(s, p, Tf) && Entry(s, p, Tf).frame < |s.page| && |s.page[Entry(s, p, Tf).frame]| == PGSIZE
  }

  // The saved user registers: the first bytes of the trapframe page.
  ghost function Regs(s: State, p: nat): seq<int>
    requires HasRegs(s, p)
  {
    s.page[Entry(s, p, Tf).frame][..TRAPFRAME_SIZE]
  }

  // q's registers are p's, but for a result of 0.
  ghost predicate Returned(s: State, p: nat, q: nat) {
    && HasRegs(s, p) && HasRegs(s, q)
    && Regs(s, q) == Regs(s, p)[..A0] + [0, 0, 0, 0, 0, 0, 0, 0] + Regs(s, p)[A0 + 8..]
  }

  lemma TrapframeOf(s: State, first: nat, tramp: nat, p: nat)
    requires Sound(s, first, tramp) && p in s.procs
    ensures HasRegs(s, p) && InPool(s, first, Entry(s, p, Tf).frame) && s.refs[Entry(s, p, Tf).frame] == {At(p, Tf)}
    ensures |s.page| == |s.refs|
  {
    assert Whole(s.procs[p], tramp);
    assert Has(s, p, Tf) && Counted(Tf);
    assert At(p, Tf) in s.refs[Entry(s, p, Tf).frame];
  }

  lemma FillUnseen(s: State, first: nat, q: nat, bytes: seq<int>)
    requires Inv(s, first) && HasRegs(s, q) && |bytes| == PGSIZE
    requires InPool(s, first, Entry(s, q, Tf).frame) && s.refs[Entry(s, q, Tf).frame] == {At(q, Tf)}
    ensures var s' := s.(page := s.page[Entry(s, q, Tf).frame := bytes]);
      Inv(s', first) && forall o, v: nat :: Look(s', o, v) == Look(s, o, v)
  {
    var f := Entry(s, q, Tf).frame;
    var s' := s.(page := s.page[f := bytes]);
    FillKeeps(s, first, f, bytes);
    forall o, v: nat ensures Look(s', o, v) == Look(s, o, v) {
      if Has(s, o, Leaf(v)) && v < TRAPFRAME { LeafInPool(s, first, o, v); }
    }
  }

  // The trapframe page is nobody's memory.
  lemma TrapframeFilled(s: State, first: nat, tramp: nat, mem: Machine, q: nat, bytes: seq<int>)
    requires Sound(s, first, tramp) && Agree(s, mem) && q in s.procs && |bytes| == PGSIZE
    ensures HasRegs(s, q)
    ensures var s' := s.(page := s.page[Entry(s, q, Tf).frame := bytes]);
      Sound(s', first, tramp) && Agree(s', mem)
  {
    hide Inv, Look;
    TrapframeOf(s, first, tramp, q);
    var s' := s.(page := s.page[Entry(s, q, Tf).frame := bytes]);
    FillUnseen(s, first, q, bytes);
    forall o | o in mem ensures Fits(s', o, mem[o]) { assert Fits(s, o, mem[o]); }
  }

  lemma SameHeldQuiet(s: State, s': State, first: nat)
    requires Quiet(s, first) && SameHeld(s, s', first)
    ensures Quiet(s', first) && |s'.refs| == |s.refs|
  {
  }

  // The child could not be allocated.
  lemma RestoredSound(s: State, s': State, first: nat, tramp: nat, mem: Machine)
    requires Sound(s, first, tramp) && Agree(s, mem) && Restored(s, s', first)
    ensures Sound(s', first, tramp) && Agree(s', mem) && SameFrames(s, s')
    ensures Inv(s', first) && Quiet(s', first) && |s'.refs| == |s.refs|
  {
    hide Inv, Look, Whole;
    SameHeldQuiet(s, s', first);
    forall p | p in mem ensures Fits(s', p, mem[p]) { assert Fits(s, p, mem[p]); }
  }

  lemma BesideParts(s: State, t: State, first: nat, tramp: nat, p: nat, q: nat)
    requires Sound(s, first, tramp) && Beside(s, t, first, q) && p in s.procs
    ensures Inv(t, first) && p != q && p in t.procs && q in t.procs && t.procs[p] == s.procs[p]
    ensures Shaped(t.procs[p].slots) && Pages(t.procs[p].sz) <= TRAPFRAME
    ensures Mapped(t.procs[p].slots, Pages(t.procs[p].sz), 0, 0)
  {
    assert Whole(s.procs[p], tramp);
    hide Inv, Look, Shaped, Mapped, Pages;
  }

  // After a failed copy the child is whole but has no memory.
  lemma CopyingFree(t: State, u: State, first: nat, tramp: nat, p: nat, q: nat)
    requires Copying(t, u, first, p, q, 0) && Newborn(t.procs[q].slots, tramp) && t.procs[q].sz == 0
    ensures Inv(u, first) && q in u.procs && Newborn(u.procs[q].slots, tramp) && u.procs[q].sz == 0 && Pages(0) == 0
    ensures Shaped(u.procs[q].slots) && Mapped(u.procs[q].slots, 0, 0, 0)
    ensures Leaf(TRAMPOLINE) in u.procs[q].slots && Leaf(TRAPFRAME) in u.procs[q].slots
  {
    hide Inv, Look, Shaped, Mapped;
  }

  lemma ForkFailed(s: State, t: State, u: State, s': State, first: nat, tramp: nat, mem: Machine, p: nat, q: nat)
    requires Sound(s, first, tramp) && Agree(s, mem) && p in s.procs && Beside(s, t, first, q)
    requires Copying(t, u, first, p, q, 0) && Gone(u, s', first, q)
    ensures Sound(s', first, tramp) && Agree(s', mem) && SameFrames(s, s')
    ensures Inv(s', first) && Quiet(s', first) && |s'.refs| == |s.refs|
  {
    hide Inv, Look, Whole;
    SameHeldQuiet(s, t, first);
    SameHeldQuiet(t, u, first);
    SameHeldQuiet(u, s', first);
    assert s'.procs.Keys == s.procs.Keys;
    SofterWhole(s.procs[p], s'.procs[p], tramp);
    forall o | o in mem ensures Fits(s', o, mem[o]) { assert Fits(s, o, mem[o]); }
  }

  lemma ForkDone(s: State, t: State, u: State, first: nat, tramp: nat, mem: Machine, p: nat, q: nat)
    requires Sound(s, first, tramp) && Agree(s, mem) && p in s.procs && Beside(s, t, first, q)
    requires Newborn(t.procs[q].slots, tramp) && Copying(t, u, first, p, q, Pages(s.procs[p].sz))
    ensures p in mem && q !in mem && q in u.procs && p in u.procs && u.procs[p].sz == s.procs[p].sz
    ensures Sound(Sized(u, q, s.procs[p].sz), first, tramp) && Agree(Sized(u, q, s.procs[p].sz), mem[q := mem[p]])
    ensures Locked(u.procs[p].slots) && Locked(u.procs[q].slots)
  {
    hide Inv, Look, Whole, Shaped, Mapped, Pages, ReadOnly, Locked;
    SameHeldQuiet(s, t, first);
    SameHeldQuiet(t, u, first);
    SizedKeeps(u, first, q, s.procs[p].sz);
    var s', mem' := Sized(u, q, s.procs[p].sz), mem[q := mem[p]];
    SofterWhole(s.procs[p], s'.procs[p], tramp);
    ChildWhole(s.procs[p], t.procs[q].slots, s'.procs[q], tramp);
    AllLocked(s'.procs[p], tramp);
    AllLocked(s'.procs[q], tramp);
    forall o | o in mem' ensures Fits(s', o, mem'[o]) {
      assert Fits(s, if o == q then p else o, mem'[o]);
    }
  }

  // No user page can be written without a fault.
  ghost predicate Locked(m: Slots) { forall v: nat :: Leaf(v) in m && m[Leaf(v)].u ==> !m[Leaf(v)].w }

  lemma AllLocked(pr: Proc, tramp: nat)
    requires Whole(pr, tramp) && ReadOnly(pr.slots, Pages(pr.sz))
    ensures Locked(pr.slots)
  {
    forall v: nat | Leaf(v) in pr.slots && pr.slots[Leaf(v)].u ensures !pr.slots[Leaf(v)].w {
      assert v != TRAPFRAME && v != TRAMPOLINE;
    }
  }

  lemma ChildWhole(pr: Proc, m: Slots, pr': Proc, tramp: nat)
    requires Whole(pr, tramp) && Newborn(m, tramp) && pr'.sz == pr.sz
    requires Shaped(pr'.slots) && Mapped(pr'.slots, Pages(pr.sz), 0, 0)
    requires forall k :: k in m ==> k in pr'.slots && pr'.slots[k] == m[k]
    ensures Whole(pr', tramp)
  {
  }

  lemma SoundParts(s: State, first: nat, tramp: nat)
    requires Sound(s, first, tramp)
    ensures Inv(s, first) && Quiet(s, first)
  {
  }

  lemma ReadyTop(s: State, first: nat, tramp: nat, p: nat)
    requires Sound(s, first, tramp) && p in s.procs
    ensures Leaf(TRAMPOLINE) in s.procs[p].slots && Leaf(TRAPFRAME) in s.procs[p].slots
  {
    assert Whole(s.procs[p], tramp);
  }

  lemma Spawned(s: State, t: State, first: nat, tramp: nat, mem: Machine, q: nat)
    requires Sound(s, first, tramp) && Agree(s, mem) && Beside(s, t, first, q)
    requires t.procs[q].sz == 0 && Newborn(t.procs[q].slots, tramp)
    ensures q !in mem && q in t.procs && Sound(t, first, tramp) && Agree(t, mem[q := Mem([], 0)])
  {
    hide Inv, Look, Shaped, Mapped;
    SameHeldQuiet(s, t, first);
    var mem' := mem[q := Mem([], 0)];
    forall o | o in mem' ensures Fits(t, o, mem'[o]) {
      if o != q { assert Fits(s, o, mem[o]); }
    }
  }

  // Between operations the tables say what is free, so there is one way for p to be gone.
  ghost predicate FreedState(s: State, u: State, first: nat, p: nat) {
    Inv(u, first) && Quiet(u, first) && u.procs == s.procs - {p} && |u.refs| == |s.refs|
  }

  lemma Reaped(s: State, t: State, first: nat, tramp: nat, mem: Machine, p: nat)
    requires Sound(s, first, tramp) && Agree(s, mem) && Gone(s, t, first, p)
    ensures Sound(t, first, tramp) && Agree(t, mem - {p}) && FreedState(s, t, first, p)
  {
    hide Inv, Look, Whole;
    SameHeldQuiet(s, t, first);
    forall o | o in mem - {p} ensures Fits(t, o, mem[o]) { assert Fits(s, o, mem[o]); }
  }

  lemma NotYet(m: Slots, v: nat)
    requires Mapped(m, v, 0, 0) && v < TRAPFRAME
    ensures Leaf(v) !in m
  {
  }

  class Kernel {
    var page: seq<seq<int>>
    var counter: seq<int>
    var free: seq<nat>
    var procs: map<nat, Proc>
    ghost var refs: seq<set<Ref>>
    ghost var mem: Machine
    const first: nat
    const tramp: nat

    ghost function S(): State
      reads this
    {
      State(page, counter, free, procs, refs)
    }

    ghost function Keys(p: nat): set<Slot>
      reads this
      requires p in procs
    {
      procs[p].slots.Keys
    }

    ghost function Inner(p: nat): set<Slot>
      reads this
      requires p in procs
    {
      NodeKeys(procs[p].slots)
    }

    ghost predicate Valid()
      reads this
    {
      Sound(S(), first, tramp) && Agree(S(), mem)
    }

    // kinit: every frame from first up goes on the free list, counted down from 1.
    constructor (nframes: nat, first: nat, tramp: nat, junk: seq<seq<int>>)
      requires tramp < first <= nframes <= NFRAME && |junk| == nframes && forall f :: 0 <= f < nframes ==>
        |junk[f]| == PGSIZE
      ensures Valid() && mem == map[] && this.first == first && this.tramp == tramp && |page| == nframes
      ensures |free| == nframes - first && forall f :: f in free <==> first <= f < nframes
    {
      this.first, this.tramp := first, tramp;
      page, counter, free, procs := junk, seq(nframes, _ => 1), [], map[];
      refs, mem := seq(nframes, _ => {}), map[];
      new;
      var f := first;
      while f < nframes
        invariant first <= f <= nframes && |page| == |counter| == |refs| == nframes && procs == map[] && mem == map[]
        invariant forall g :: 0 <= g < nframes ==> refs[g] == {} && |page[g]| == PGSIZE
        invariant forall g :: first <= g < f ==> counter[g] == 0
        invariant forall g :: f <= g < nframes ==> counter[g] == 1
        invariant |free| == f - first && forall g :: g in free <==> first <= g < f
        invariant forall i, j :: 0 <= i < j < |free| ==> free[i] != free[j]
      {
        ghost var was := free;
        Kfree(f);
        assert free == [f] + was && f !in was;
        assert forall j :: 0 < j < |free| ==> free[j] == was[j - 1];
        f := f + 1;
      }
      assert Inv(S(), first);
    }

    method Kalloc() returns (r: Option<nat>)
      requires Inv(S(), first)
      modifies this`page, this`counter, this`free, this`refs
      ensures r.None? <==> old(free) == []
      ensures r.None? ==> S() == old(S())
      ensures r.Some? ==> r.value == Head(old(S()), first) && S() == Taken(old(S()), first)
    {
      if free == [] { return None; }
      ghost var s := S();
      var f := free[0];
      assert f == Head(s, first);
      free := free[1..];
      page := page[f := Filled(5)];
      IncreaseCount(f);
      refs := refs[f := {Temp}];
      r := Some(f);
    }

    // kalloc and memset.
    method Kblank() returns (r: Option<nat>)
      requires Inv(S(), first)
      modifies this`page, this`counter, this`free, this`refs
      ensures r.None? <==> old(free) == []
      ensures r.None? ==> S() == old(S())
      ensures r.Some? ==> r.value == Head(old(S()), first) && S() == Blank(old(S()), first, Filled(0))
    {
      r := Kalloc();
      if r.Some? { page := page[r.value := Filled(0)]; }
    }

    method IncreaseCount(f: nat)
      requires f < |counter|
      modifies this`counter
      ensures counter == old(counter)[f := Inc(old(counter)[f])]
    {
      counter := counter[f := Inc(counter[f])];
    }

    method DecreaseCount(f: nat) returns (c: int)
      requires f < |counter|
      modifies this`counter
      ensures c == Dec(old(counter)[f]) && counter == old(counter)[f := c]
    {
      c := Dec(counter[f]);
      counter := counter[f := c];
    }

    method Kfree(f: nat)
      requires first <= f < |counter| == |page|
      modifies this`page, this`counter, this`free
      ensures S() == Gave(old(S()), f)
    {
      var c := DecreaseCount(f);
      if c > 0 { return; }
      page := page[f := Filled(1)];
      free := [f] + free;
    }

    // walk with alloc: fills in the interior pages above v.
    method WalkAlloc(p: nat, v: nat) returns (ok: bool)
      requires Inv(S(), first) && p in procs && Shaped(procs[p].slots) && Root in procs[p].slots && v < MAXVPN
      modifies this`page, this`counter, this`free, this`procs, this`refs
      ensures Grew(old(S()), S(), first, p)
      ensures if ok then L0(v / NPTE) in procs[p].slots else free == []
      ensures Spent(old(Keys(p)), |old(free)|, Keys(p), |free|, Path(v), ok)
      ensures |Keys(p)| + |free| == |old(Keys(p))| + |old(free)|
    {
      hide Inv, Look, Shaped, Spent, Enough, Path;
      ghost var s := S();
      GrewNothing(s, first, p);
      SpentNone(Keys(p), |free|);
      var level := 2;
      while level > 0
        invariant 0 <= level <= 2
        invariant Grew(s, S(), first, p)
        invariant level == 1 ==> L1(v / NPTE / NPTE) in procs[p].slots
        invariant level == 0 ==> L0(v / NPTE) in procs[p].slots
        invariant Spent(s.procs[p].slots.Keys, |s.free|, Keys(p), |free|, Passed(level, v), true)
        invariant |Keys(p)| + |free| == |s.procs[p].slots.Keys| + |s.free|
      {
        assert NodeAt(level, v) == if level == 2 then L1(v / NPTE / NPTE) else L0(v / NPTE);
        ghost var t := S();
        var got := Descend(p, NodeAt(level, v));
        GrewTwice(s, t, S(), first, p);
        LevelSpent(s.procs[p].slots.Keys, |s.free|, t.procs[p].slots.Keys, |t.free|, Keys(p), |free|, level, v, got);
        if !got {
          PathShort(s.procs[p].slots.Keys, |s.free|, Keys(p), |free|, v);
          return false;
        }
        level := level - 1;
      }
      PathPassed(s.procs[p].slots.Keys, |s.free|, Keys(p), |free|, v);
      ok := true;
    }

    method Descend(p: nat, slot: Slot) returns (ok: bool)
      requires Inv(S(), first) && p in procs && Shaped(procs[p].slots)
      requires match slot case L1(i) => i < NPTE && Root in procs[p].slots
                          case L0(j) => j < NPTE * NPTE && L1(j / NPTE) in procs[p].slots
                          case _ => false
      modifies this`page, this`counter, this`free, this`procs, this`refs
      ensures Grew(old(S()), S(), first, p)
      ensures if ok then slot in procs[p].slots else free == []
      ensures Spent(old(Keys(p)), |old(free)|, Keys(p), |free|, {slot}, ok)
      ensures |Keys(p)| + |free| == |old(Keys(p))| + |old(free)|
    {
      hide Inv, Look, Shaped;
      ghost var s := S();
      SpentOne(Keys(p), |free|, slot);
      if slot in procs[p].slots {
        GrewNothing(s, first, p);
        return true;
      }
      var r := Kalloc();
      if r.None? {
        GrewNothing(s, first, p);
        return false;
      }
      var f := r.value;
      Sizes(s, first);
      page := page[f := Filled(0)];
      procs := procs[p := procs[p].(slots := procs[p].slots[slot := Node(f)])];
      refs := refs[f := {At(p, slot)}];
      assert Keys(p) == s.procs[p].slots.Keys + {slot};
      NodeGrew(s, first, p, slot);
      assert S() == Noded(s, first, p, slot);
      ok := true;
    }

    // mappages for one page; the new entry is not yet counted.
    method MapPage(p: nat, v: nat, e: Pte) returns (ok: bool, ghost g: State)
      requires Inv(S(), first) && p in procs && Shaped(procs[p].slots) && Root in procs[p].slots && v < MAXVPN
      requires Leaf(v) !in procs[p].slots
      modifies this`page, this`counter, this`free, this`procs, this`refs
      ensures Grew(old(S()), g, first, p)
      ensures if ok then L0(v / NPTE) in g.procs[p].slots && S() == WithSlot(g, p, Leaf(v), e)
        else S() == g && free == []
      ensures Spent(old(Keys(p)), |old(free)|, g.procs[p].slots.Keys, |g.free|, Path(v), ok)
      ensures |g.procs[p].slots.Keys| + |g.free| == |old(Keys(p))| + |old(free)|
    {
      hide Spent;
      ok := WalkAlloc(p, v);
      g := S();
      if ok {
        procs := procs[p := procs[p].(slots := procs[p].slots[Leaf(v) := e])];
      }
    }

    // One page of uvmunmap with do_free.
    method DropLeaf(p: nat, v: nat)
      requires Inv(S(), first) && Has(S(), p, Leaf(v)) && v < TRAPFRAME
      modifies this`page, this`counter, this`free, this`procs, this`refs
      ensures Entry(old(S()), p, Leaf(v)).frame < |old(S()).refs| == |old(S()).counter| == |old(S()).page|
      ensures S() == Dropped(old(S()), p, Leaf(v)) && Edited(old(S()), S(), first, p, v)
    {
      ghost var s := S();
      LeafDropped(s, first, p, v);
      hide Inv, Look;
      Sizes(s, first);
      var f := procs[p].slots[Leaf(v)].frame;
      Kfree(f);
      procs := procs[p := procs[p].(slots := procs[p].slots - {Leaf(v)})];
      refs := refs[f := refs[f] - {At(p, Leaf(v))}];
    }

    // uvmunmap of user pages [a, n), freeing each.
    method UvmUnmap(p: nat, a: nat, n: nat)
      requires Inv(S(), first) && p in procs && Shaped(procs[p].slots) && a <= n <= TRAPFRAME
      requires Mapped(procs[p].slots, n, 0, 0)
      modifies this`page, this`counter, this`free, this`procs, this`refs
      ensures Reshaped(old(S()), S(), first, p, a) && Mapped(procs[p].slots, a, 0, 0) && Inner(p) == old(Inner(p))
    {
      hide Inv, Look, Shaped;
      ghost var s := S();
      ReshapedNothing(s, first, p, a);
      var i := a;
      while i < n
        invariant a <= i <= n
        invariant Reshaped(s, S(), first, p, a) && Mapped(procs[p].slots, n, a, i) && Inner(p) == old(Inner(p))
      {
        ghost var t := S();
        assert Has(t, p, Leaf(i));
        DropLeaf(p, i);
        WithoutLeaf(t.procs[p].slots, i);
        Unmapped(s, t, first, p, n, a, i);
        i := i + 1;
      }
      MappedAll(procs[p].slots, n, a);
    }

    method Uvmdealloc(p: nat, oldsz: nat, newsz: nat) returns (sz: nat)
      requires Inv(S(), first) && p in procs && Shaped(procs[p].slots) && Pages(oldsz) <= TRAPFRAME
      requires Mapped(procs[p].slots, Pages(oldsz), 0, 0)
      modifies this`page, this`counter, this`free, this`procs, this`refs
      ensures sz == if newsz >= oldsz then oldsz else newsz
      ensures Reshaped(old(S()), S(), first, p, Pages(sz)) && Mapped(procs[p].slots, Pages(sz), 0, 0)
      ensures Inner(p) == old(Inner(p))
    {
      if newsz >= oldsz {
        ReshapedNothing(S(), first, p, Pages(oldsz));
        return oldsz;
      }
      if Pages(newsz) < Pages(oldsz) {
        UvmUnmap(p, Pages(newsz), Pages(oldsz));
      } else {
        ReshapedNothing(S(), first, p, Pages(newsz));
      }
      sz := newsz;
    }

    // One page of uvmalloc.
    method AddPage(p: nat, v: nat, w: bool, x: bool) returns (ok: bool)
      requires Inv(S(), first) && p in procs && Shaped(procs[p].slots) && Root in procs[p].slots && v < TRAPFRAME
      requires Mapped(procs[p].slots, v, 0, 0)
      modifies this`page, this`counter, this`free, this`procs, this`refs
      ensures p in procs && (!ok ==> Grew(old(S()), S(), first, p))
      ensures ok ==> Edited(old(S()), S(), first, p, v) && Look(S(), p, v) == Some(View(Filled(0), true, w, x, true))
      ensures ok ==> Shaped(procs[p].slots)
      ensures ok ==> Mapped(procs[p].slots, v + 1, 0, 0)
      ensures Spent(old(Keys(p)), |old(free)|, Keys(p), |free|, PagePath(v), ok)
      ensures !ok ==> |Keys(p)| == |old(Keys(p))| + if old(free) == [] then 0 else |old(free)| - 1
    {
      hide Inv, Look, Shaped, Mapped, Spent, Enough, Path, PagePath, Blank, Taken, Grew, Edited;
      ghost var s := S();
      NotYet(s.procs[p].slots, v);
      var r := Kblank();
      if r.None? {
        GrewNothing(s, first, p);
        NoLeafFrame(Keys(p), v);
        Short(Keys(p), 0, PagePath(v));
        return false;
      }
      var f := r.value;
      BlankTakes(s, first, Filled(0));
      BlankKeeps(s, first, Filled(0));
      var e := Pte(f, true, w, x, true, false);
      ghost var g;
      ok, g := MapPage(p, v, e);
      GrewParts(Blank(s, first, Filled(0)), g, first, p);
      LeafSpent(s.procs[p].slots.Keys, |s.free|, g.procs[p].slots.Keys, |g.free|, v, ok);
      if !ok {
        Short(s.procs[p].slots.Keys, |s.free|, PagePath(v));
        PageRefused(s, g, first, p, Filled(0));
        Kfree(f);
        refs := refs[f := {}];
        assert S() == TempDropped(g, f);
        return;
      }
      assert Keys(p) == g.procs[p].slots.Keys + {Leaf(v)};
      PageAdded(s, g, first, p, v, Filled(0), e);
      refs := refs[f := {At(p, Leaf(v))}];
      assert S() == Placed(g, p, Leaf(v), e);
      GrewReshaped(Blank(s, first, Filled(0)), g, first, p, 0, v);
      ShapedLeaf(g.procs[p].slots, v, e);
      MappedNext(g.procs[p].slots, v, e);
    }

    method Uvmalloc(p: nat, oldsz: nat, newsz: nat, w: bool, x: bool) returns (sz: nat)
      requires Inv(S(), first) && p in procs && Shaped(procs[p].slots) && Root in procs[p].slots
      requires |page| <= NFRAME && Pages(oldsz) <= TRAPFRAME && Mapped(procs[p].slots, Pages(oldsz), 0, 0)
      modifies this`page, this`counter, this`free, this`procs, this`refs
      ensures Reshaped(old(S()), S(), first, p, Pages(oldsz))
      ensures newsz < oldsz ==> sz == oldsz && S() == old(S())
      ensures newsz >= oldsz ==> sz == newsz || sz == 0
      ensures newsz >= oldsz && sz == newsz ==> Mapped(procs[p].slots, Pages(newsz), 0, 0) && Pages(newsz) <= TRAPFRAME
      ensures newsz >= oldsz && sz == newsz ==> forall v: nat :: Pages(oldsz) <= v < Pages(newsz) ==>
        Look(S(), p, v) == Some(View(Filled(0), true, w, x, true))
      ensures newsz >= oldsz && sz == newsz ==> forall v: nat :: Pages(oldsz) <= v < Pages(newsz) ==>
        BlankPage(Look(S(), p, v), w, x)
      ensures newsz >= oldsz && sz != newsz ==> Mapped(procs[p].slots, Pages(oldsz), 0, 0)
      ensures newsz > oldsz ==>
        (sz == newsz <==> Enough(|old(free)|, Region(Pages(oldsz), Pages(newsz)), old(Keys(p))))
      ensures newsz > oldsz && sz != newsz ==>
        (Refunded(old(S()), S(), first) <==> NothingStays(|old(free)|, old(Keys(p)), Pages(oldsz), Pages(newsz)))
    {
      hide Inv, Look, Shaped, Reshaped, Mapped, Edited, Growing, Grew, Spent, Enough, Region, PagePath, Refunded,
        NothingStays, NodeKeys, BlankPage;
      ghost var s := S();
      ghost var blank := View(Filled(0), true, w, x, true);
      var lo := Pages(oldsz);
      GrowingStart(s, first, p, lo, blank);
      if newsz < oldsz { return oldsz; }
      var i := lo;
      SpentNone(Keys(p), |free|);
      NoRegion(lo);
      ghost var k := Keys(p);
      while i * PGSIZE < newsz
        invariant lo <= i <= TRAPFRAME && (i == lo || i <= Pages(newsz))
        invariant Growing(s, S(), first, p, lo, i, blank) && p in procs
        invariant Spent(k, |s.free|, Keys(p), |free|, Region(lo, i), true)
        decreases newsz - i * PGSIZE
      {
        ghost var t := S();
        GrowingBound(s, t, first, p, lo, i, blank);
        var ok := AddPage(p, i, w, x);
        RegionSpent(k, |s.free|, t.procs[p].slots.Keys, |t.free|, Keys(p), |free|, lo, i, Pages(newsz), ok);
        if !ok {
          Retreat(s, t, p, lo, i, Pages(newsz), blank);
          return 0;
        }
        GrowingNext(s, t, S(), first, p, lo, i, blank);
        i := i + 1;
      }
      GrowingDone(s, S(), first, p, lo, i, blank);
      BlankView(w, x);
      EnoughSpent(k, |s.free|, Keys(p), |free|, Region(lo, i));
      sz := newsz;
    }

    // uvmalloc gives up at page i, having come from s to t and then failed to add the page.
    method Retreat(ghost s: State, ghost t: State, p: nat, lo: nat, i: nat, ghost hi: nat, ghost blank: View)
      requires Inv(s, first) && Growing(s, t, first, p, lo, i, blank) && Grew(t, S(), first, p) && lo <= i < hi
      requires i < TRAPFRAME && Mapped(s.procs[p].slots, lo, 0, 0)
      requires Spent(s.procs[p].slots.Keys, |s.free|, t.procs[p].slots.Keys, |t.free|, Region(lo, i), true)
      requires Spent(t.procs[p].slots.Keys, |t.free|, Keys(p), |free|, PagePath(i), false)
      requires |Keys(p)| == |t.procs[p].slots.Keys| + if t.free == [] then 0 else |t.free| - 1
      modifies this`page, this`counter, this`free, this`procs, this`refs
      ensures Reshaped(s, S(), first, p, lo) && Mapped(procs[p].slots, lo, 0, 0)
      ensures Refunded(s, S(), first) <==> NothingStays(|s.free|, s.procs[p].slots.Keys, lo, hi)
    {
      hide Inv, Look, Shaped, Reshaped, Mapped, Growing, Spent, Region, PagePath, Refunded, NothingStays, NodeKeys;
      GrowingStopped(s, t, S(), first, p, lo, i, blank);
      ghost var u := S();
      var _ := Uvmdealloc(p, i * PGSIZE, lo * PGSIZE);
      ReshapedTwice(s, u, S(), first, p, lo);
      GrowthRefused(s, t, u, S(), first, p, lo, i, hi, blank);
    }

    method Growproc(p: nat, n: int) returns (r: int)
      requires Valid() && p in procs && -0x8000_0000 <= n < 0x8000_0000
      modifies this
      ensures Valid() && r in {0, -1} && (n <= 0 ==> r == 0)
      ensures r == 0 ==> mem == old(mem)[p := Resized(old(mem)[p], NewSize(old(mem)[p].sz, n))]
      ensures r == 0 ==> mem[p].sz == if old(mem)[p].sz + n < 0 then old(mem)[p].sz else old(mem)[p].sz + n
      ensures r == 0 ==> forall a: nat :: SeenAt(old(mem)[p], mem[p], mem[p].sz, a)
      ensures r == -1 ==> mem == old(mem) && OnlyInterior(old(S()), S(), p)
      ensures p in old(mem) && (r == 0 <==> CanGrow(old(S()), p, n))
      ensures r == -1 ==> (Refunded(old(S()), S(), first) <==> GrowthStaysOut(old(S()), p, n))
    {
      hide Refunded, NothingStays, SeenAt, Inv, Look, Shaped, Mapped, Reshaped, Pages, KeptTop, Resized, Sizing, Sound,
          Agree,
        OnlyInterior, Region;
      ghost var s := S();
      Ready(s, first, tramp, mem, p);
      var sz := procs[p].sz;
      if n > 0 {
        sz := Uvmalloc(p, sz, sz + n, true, false);
        if sz == 0 {
          NotRegrown(s, S(), first, tramp, mem, p);
          return -1;
        }
        assert Sizing(s, S(), first, p, mem[p].sz, sz) by { SizingUp(s, S(), first, p, mem[p].sz, sz); }
      } else if n < 0 {
        sz := Uvmdealloc(p, sz, (sz + n) % 0x1_0000_0000_0000_0000);
        SizingDown(s, S(), first, p, mem[p].sz, sz, n);
      } else {
        ReshapedNothing(s, first, p, Pages(sz));
        SizingUp(s, s, first, p, sz, sz);
      }
      Regrown(s, S(), first, tramp, mem, p, sz);
      SeenResized(s, first, tramp, mem, p, sz);
      procs := procs[p := procs[p].(sz := sz)];
      mem := mem[p := Resized(mem[p], sz)];
      r := 0;
    }

    // walk without alloc: whether the interior pages above v are there.
    predicate Walk(p: nat, v: nat)
      requires p in procs
      reads this
    {
      L1(v / NPTE / NPTE) in procs[p].slots && L0(v / NPTE) in procs[p].slots
    }

    predicate Resident(p: nat, v: nat)
      reads this
    {
      Writable(procs, p, v)
    }

    method CowPageFaultHandler(p: nat, va: nat) returns (r: int)
      requires Valid() && p in procs
      modifies this`page, this`counter, this`free, this`procs, this`refs
      ensures Valid() && r in {0, -1}
      ensures p in mem && (r == 0 <==>
        va != 0 && Storable(mem[p], va)
        && (old(Resident(p, va / PGSIZE)) || old(free) != []))
      ensures r == 0 ==> Resident(p, va / PGSIZE) && Faulted(old(S()), S(), first, p, va / PGSIZE)
      ensures r == -1 ==> S() == old(S())
    {
      hide Inv, Look, Sound, Agree, Copied;
      var v := va / PGSIZE;
      Seen(S(), first, tramp, mem, p, v);
      Ready(S(), first, tramp, mem, p);
      if va == 0 || v >= MAXVPN { return -1; }
      if !Walk(p, v) { return -1; }
      if Leaf(v) !in procs[p].slots { return -1; }
      var e := procs[p].slots[Leaf(v)];
      if !e.u { return -1; }
      if e.w { return 0; }
      if !e.cow { return -1; }
      r := CopyFrame(p, v);
    }

    method CopyFrame(p: nat, v: nat) returns (r: int)
      requires Valid() && Has(S(), p, Leaf(v)) && Entry(S(), p, Leaf(v)).u && Entry(S(), p, Leaf(v)).cow
      modifies this`page, this`counter, this`free, this`procs, this`refs
      ensures Valid() && r in {0, -1} && (r == 0 <==> old(free) != [])
      ensures r == 0 ==> Resident(p, v)
      ensures r == 0 ==> Inv(old(S()), first) && v < TRAPFRAME && S() == Copied(old(S()), first, p, v)
      ensures r == -1 ==> S() == old(S())
    {
      hide Inv, Look, Sound, Agree, Edited;
      ghost var s := S();
      Seen(s, first, tramp, mem, p, v);
      Ready(s, first, tramp, mem, p);
      var e := procs[p].slots[Leaf(v)];
      var pa := e.frame;
      var k := Kalloc();
      if k.None? { return -1; }
      var f := k.value;
      CopyMade(s, first, p, v);
      procs := procs[p := procs[p].(slots := procs[p].slots[Leaf(v) := e.(frame := f, w := true, cow := false)])];
      page := page[f := page[pa]];
      Kfree(pa);
      refs := refs[pa := refs[pa] - {At(p, Leaf(v))}][f := {At(p, Leaf(v))}];
      CopiedIs(s, first, p, v);
      SameAgain(s, S(), first, tramp, mem, p, v);
      r := 0;
    }

    // memmove into a page that the handler has made writable.
    method WriteBytes(p: nat, v: nat, off: nat, d: seq<int>)
      requires Valid() && Resident(p, v) && off + |d| <= PGSIZE
      modifies this`page, this`mem
      ensures Valid() && p in old(mem) && mem ==
        old(mem)[p := old(mem)[p].(pages := Stored(old(mem)[p].pages, v * PGSIZE + off, d))]
      ensures forall u :: Resident(p, u) == old(Resident(p, u))
    {
      hide Inv, Look, Sound, Agree, Edited, Stored;
      ghost var s := S();
      Seen(s, first, tramp, mem, p, v);
      Ready(s, first, tramp, mem, p);
      var pa := procs[p].slots[Leaf(v)].frame;
      var bytes := page[pa][..off] + d + page[pa][off + |d|..];
      PokeKeeps(s, first, p, v, bytes);
      page := page[pa := bytes];
      FullMem(s, first, tramp, mem, p);
      StoredInPage(mem[p].pages, v, off, d);
      EditSettled(s, S(), first, tramp, mem, p, v, mem[p].pages[v].(bytes := bytes));
      mem := mem[p := mem[p].(pages := Stored(mem[p].pages, v * PGSIZE + off, d))];
    }

    // A store instruction: the hardware faults unless the entry is writable, and the handler runs.
    method UserStore(p: nat, va: nat, b: int) returns (ok: bool)
      requires Valid() && p in procs
      modifies this
      ensures Valid() && p in old(mem)
      ensures ok <==> Storable(old(mem)[p], va) && (old(Resident(p, va / PGSIZE)) || (va != 0 && old(free) != []))
      ensures mem == if ok then old(mem)[p := old(mem)[p].(pages := Stored(old(mem)[p].pages, va, [b]))] else old(mem)
      ensures !ok ==> S() == old(S())
    {
      hide Inv, Look, Sound, Agree, Stored;
      var v := va / PGSIZE;
      Seen(S(), first, tramp, mem, p, v);
      if !Resident(p, v) {
        var r := CowPageFaultHandler(p, va);
        if r == -1 { return false; }
      }
      WriteBytes(p, v, va % PGSIZE, [b]);
      ok := true;
    }

    method Copyout(p: nat, dstva: nat, src: seq<int>) returns (r: int, wrote: nat)
      requires Valid() && p in procs
      modifies this
      ensures Valid() && p in old(mem) && wrote <= |src| && r == if wrote == |src| then 0 else -1
      ensures mem == old(mem)[p := old(mem)[p].(pages := Stored(old(mem)[p].pages, dstva, src[..wrote]))]
      ensures AllStorable(old(mem)[p], dstva, wrote) && (wrote > 0 ==> dstva != 0)
      ensures r == -1 ==> dstva + wrote == 0 || !Storable(old(mem)[p], dstva + wrote) || free == []
      ensures CopyReaches(old(S()), p, dstva, |src|, wrote)
    {
      hide Inv, Look, Sound, Agree, Stored, Storable, AllStorable, PageReady, Ahead;
      Ready(S(), first, tramp, mem, p);
      ghost var s, lo := S(), dstva / PGSIZE;
      AheadStart(s, p, lo);
      ghost var m := mem[p];
      wrote := 0;
      var va := dstva;
      StoredNothing(m.pages, dstva);
      assert mem == mem[p := m];
      StorableNone(m, dstva);
      while wrote < |src|
        invariant Valid() && p in procs && p in mem && wrote <= |src|
        invariant mem == old(mem)[p := m.(pages := Stored(m.pages, dstva, src[..wrote]))]
        invariant wrote < |src| ==> va == dstva + wrote
        invariant AllStorable(m, dstva, wrote) && (wrote > 0 ==> dstva != 0)
        invariant lo <= va / PGSIZE && Ahead(s, S(), p, lo, va / PGSIZE)
        invariant forall v: nat :: lo <= v < va / PGSIZE ==> PageReady(s, p, lo, v)
        invariant dstva + wrote <= va / PGSIZE * PGSIZE || wrote == 0
      {
        StorableKept(m, dstva, src[..wrote], va);
        var off := va % PGSIZE;
        var n := if PGSIZE - off < |src| - wrote then PGSIZE - off else |src| - wrote;
        var ok := CopyToPage(p, va, src[wrote..wrote + n], s, lo);
        if !ok { return -1, wrote; }
        StoredTwice(m.pages, dstva, src[..wrote], src[wrote..wrote + n]);
        assert src[..wrote] + src[wrote..wrote + n] == src[..wrote + n];
        StorableMore(m, dstva, wrote, n);
        wrote := wrote + n;
        va := (va / PGSIZE + 1) * PGSIZE;
      }
      r := 0;
    }

    // One page of copyout: the fault handler, then memmove.
    method CopyToPage(p: nat, va: nat, d: seq<int>, ghost s: State, ghost lo: nat) returns (ok: bool)
      requires Valid() && p in procs && lo <= va / PGSIZE && Ahead(s, S(), p, lo, va / PGSIZE)
      requires va % PGSIZE + |d| <= PGSIZE
      modifies this
      ensures Valid() && p in procs && p in old(mem) && p in mem
      ensures ok <==> va != 0 && PageReady(s, p, lo, va / PGSIZE)
      ensures ok ==> mem == old(mem)[p := old(mem)[p].(pages := Stored(old(mem)[p].pages, va, d))]
      ensures ok ==> Ahead(s, S(), p, lo, va / PGSIZE + 1) && Storable(old(mem)[p], va)
      ensures !ok ==> S() == old(S()) && mem == old(mem) && (va == 0 || !Storable(mem[p], va) || free == [])
    {
      hide Inv, Look, Sound, Agree, Stored, Storable, PageReady, Ahead, Faulted;
      ghost var t := S();
      ReadyExactly(s, t, first, tramp, mem, p, lo, va / PGSIZE, va);
      var fault := CowPageFaultHandler(p, va);
      if fault == -1 { return false; }
      BelowTop(s, p, lo, va / PGSIZE);
      SoundParts(t, first, tramp);
      AheadFaulted(s, t, S(), first, p, lo, va / PGSIZE);
      ghost var u := S();
      WriteBytes(p, va / PGSIZE, va % PGSIZE, d);
      AheadPoked(s, u, S(), p, lo, va / PGSIZE + 1);
      assert va / PGSIZE * PGSIZE + va % PGSIZE == va;
      ok := true;
    }

    function Walkaddr(p: nat, va: nat): Option<nat>
      requires p in procs
      reads this
    {
      var v := va / PGSIZE;
      if v >= MAXVPN || !Walk(p, v) || Leaf(v) !in procs[p].slots || !procs[p].slots[Leaf(v)].u then None
      else Some(procs[p].slots[Leaf(v)].frame)
    }

    method Copyin(p: nat, srcva: nat, len: nat) returns (r: int, dst: seq<int>)
      requires Valid() && p in procs
      ensures p in mem && Full(mem[p].pages) && |dst| <= len && r == if |dst| == len then 0 else -1
      ensures Got(mem[p], srcva, dst)
      ensures r == -1 ==> !Readable(mem[p], srcva + |dst|)
    {
      hide Inv, Look, Sound, Agree;
      FullMem(S(), first, tramp, mem, p);
      dst := [];
      var va := srcva;
      while |dst| < len
        invariant |dst| <= len && (|dst| < len ==> va == srcva + |dst|)
        invariant Got(mem[p], srcva, dst)
      {
        ghost var v := va / PGSIZE;
        Seen(S(), first, tramp, mem, p, v);
        var pa := Walkaddr(p, va);
        if pa.None? { return -1, dst; }
        var off := va % PGSIZE;
        var n := if PGSIZE - off < len - |dst| then PGSIZE - off else len - |dst|;
        ghost var done := dst;
        dst := dst + page[pa.value][off..off + n];
        GotMore(mem[p], srcva, done, v, off, n);
        va := (va / PGSIZE + 1) * PGSIZE;
      }
      r := 0;
    }

    method DropSlot(p: nat, slot: Slot)
      requires Inv(S(), first) && Has(S(), p, slot) && !slot.Leaf?
      modifies this`page, this`counter, this`free, this`procs, this`refs
      ensures Touched(old(S()), S(), first, p) && procs[p].slots == old(procs)[p].slots - {slot}
    {
      hide Inv, Look;
      ghost var s := S();
      SlotDropped(s, first, p, slot);
      Sizes(s, first);
      var f := procs[p].slots[slot].frame;
      Kfree(f);
      procs := procs[p := procs[p].(slots := procs[p].slots - {slot})];
      refs := refs[f := refs[f] - {At(p, slot)}];
      assert S() == Dropped(s, p, slot);
    }

    // Frees a page of a table and all pages below it; every leaf must be gone.
    method FreeWalk(p: nat, slot: Slot)
      requires Inv(S(), first) && Has(S(), p, slot) && (slot.Root? || slot.L1? || slot.L0?)
      requires Shaped(procs[p].slots) && NoLeaf(procs[p].slots)
      modifies this`page, this`counter, this`free, this`procs, this`refs
      ensures Touched(old(S()), S(), first, p) && PrunedUnder(old(procs)[p].slots, procs[p].slots, slot)
      decreases if slot.Root? then 2 else if slot.L1? then 1 else 0
    {
      hide Inv, Look, Shaped;
      ghost var s, m := S(), procs[p].slots;
      Sizes(s, first);
      var k := 0;
      while k < NPTE
        invariant k <= NPTE && Touched(s, S(), first, p) && PrunedBelow(m, procs[p].slots, slot, k)
      {
        ghost var t := S();
        BelowShaped(m, procs[p].slots, slot, k);
        var c := Child(slot, k);
        if c in procs[p].slots {
          FreeWalk(p, c);
          TouchedTwice(s, t, S(), first, p);
        }
        ChildPruned(m, t.procs[p].slots, procs[p].slots, slot, k);
        k := k + 1;
      }
      ghost var t := S();
      AllPruned(m, procs[p].slots, slot);
      DropSlot(p, slot);
      TouchedTwice(s, t, S(), first, p);
    }

    // uvmunmap of one kernel page, which is not freed.
    method UnmapTop(p: nat, v: nat)
      requires Inv(S(), first) && Has(S(), p, Leaf(v)) && !Counted(Leaf(v))
      modifies this`procs
      ensures Touched(old(S()), S(), first, p) && Inv(S(), first) && p in procs
        && procs[p].slots == old(procs)[p].slots - {Leaf(v)}
    {
      TopCleared(S(), first, p, v);
      procs := procs[p := procs[p].(slots := procs[p].slots - {Leaf(v)})];
    }

    method Uvmfree(p: nat, sz: nat)
      requires Inv(S(), first) && p in procs && Shaped(procs[p].slots) && Root in procs[p].slots
      requires Pages(sz) <= TRAPFRAME && Mapped(procs[p].slots, Pages(sz), 0, 0)
      requires forall v: nat :: TRAPFRAME <= v ==> Leaf(v) !in procs[p].slots
      modifies this`page, this`counter, this`free, this`procs, this`refs
      ensures Touched(old(S()), S(), first, p) && Inv(S(), first) && p in procs
      ensures forall t :: t in procs[p].slots <==> t == Tf && Tf in old(procs)[p].slots
      ensures Tf in procs[p].slots ==> procs[p].slots[Tf] == old(procs)[p].slots[Tf]
    {
      hide Inv, Look, Shaped;
      ghost var s := S();
      Sizes(s, first);
      if sz > 0 {
        UvmUnmap(p, 0, Pages(sz));
      }
      ghost var t := S();
      assert Touched(s, t, first, p) && Mapped(procs[p].slots, 0, 0, 0);
      assert NoLeaf(procs[p].slots);
      FreeWalk(p, Root);
      TouchedTwice(s, t, S(), first, p);
    }

    method ProcFreePagetable(p: nat, sz: nat)
      requires Inv(S(), first) && p in procs && Shaped(procs[p].slots) && Root in procs[p].slots
      requires Pages(sz) <= TRAPFRAME && Mapped(procs[p].slots, Pages(sz), 0, 0)
      requires Leaf(TRAMPOLINE) in procs[p].slots && Leaf(TRAPFRAME) in procs[p].slots
      modifies this`page, this`counter, this`free, this`procs, this`refs
      ensures Touched(old(S()), S(), first, p)
      ensures forall t :: t in procs[p].slots <==> t == Tf && Tf in old(procs)[p].slots
    {
      hide Inv, Look;
      ghost var s := S();
      ShapedWithout(procs[p].slots, TRAMPOLINE);
      UnmapTop(p, TRAMPOLINE);
      ghost var t := S();
      ShapedWithout(procs[p].slots, TRAPFRAME);
      UnmapTop(p, TRAPFRAME);
      ghost var u := S();
      TouchedTwice(s, t, u, first, p);
      Uvmfree(p, sz);
      TouchedTwice(s, u, S(), first, p);
    }

    method FreeProc(p: nat)
      requires Inv(S(), first) && p in procs && Shaped(procs[p].slots)
      requires Root in procs[p].slots ==> Leaf(TRAMPOLINE) in procs[p].slots && Leaf(TRAPFRAME) in procs[p].slots
      requires Root in procs[p].slots ==>
        Pages(procs[p].sz) <= TRAPFRAME
        && Mapped(procs[p].slots, Pages(procs[p].sz), 0, 0)
      modifies this`page, this`counter, this`free, this`procs, this`refs
      ensures Gone(old(S()), S(), first, p)
    {
      hide Inv, Look, Pages;
      ghost var s := S();
      Sizes(s, first);
      if Tf in procs[p].slots {
        DropSlot(p, Tf);
      }
      ghost var t := S();
      assert Touched(s, t, first, p) && Shaped(procs[p].slots);
      if Root in procs[p].slots {
        ProcFreePagetable(p, procs[p].sz);
        TouchedTwice(s, t, S(), first, p);
      }
      Emptied(s, S(), first, p);
      procs := procs - {p};
    }

    // A table with its two kernel pages and no user page.
    method ProcPagetable(p: nat) returns (ok: bool)
      requires Inv(S(), first) && p in procs && procs[p].slots.Keys == {Tf} && Plain(procs[p].slots[Tf])
      modifies this`page, this`counter, this`free, this`procs, this`refs
      ensures Touched(old(S()), S(), first, p) && p in procs && Shaped(procs[p].slots)
      ensures ok ==> Root in procs[p].slots && Topped(procs[p].slots, tramp) && Mapped(procs[p].slots, 0, 0, 0)
      ensures !ok ==> procs[p].slots.Keys == {Tf}
      ensures Spent({Tf}, |old(free)|, Inner(p), |free|, {Root} + Path(TRAMPOLINE), ok)
    {
      hide Inv, Look, Touched, Spent, Enough, Path, Shaped, Mapped, Topped, NodeKeys;
      ghost var s := S();
      ok := Uvmcreate(p);
      if !ok {
        RootShort(|s.free|, Inner(p), |free|);
        return;
      }
      ghost var t := S();
      ghost var k := Inner(p);
      ok := MapKernelPages(p);
      TouchedTwice(s, t, S(), first, p);
      SpentTwice({Tf}, |s.free|, k, |t.free|, Inner(p), |free|, {Root}, Path(TRAMPOLINE), ok);
    }

    // The trampoline and the trapframe, or neither and no table.
    method MapKernelPages(p: nat) returns (ok: bool)
      requires Inv(S(), first) && p in procs && procs[p].slots.Keys == {Tf, Root} && Shaped(procs[p].slots)
      modifies this`page, this`counter, this`free, this`procs, this`refs
      ensures Touched(old(S()), S(), first, p) && p in procs && Shaped(procs[p].slots)
      ensures ok ==> Root in procs[p].slots && Topped(procs[p].slots, tramp) && Mapped(procs[p].slots, 0, 0, 0)
      ensures !ok ==> procs[p].slots.Keys == {Tf}
      ensures Spent(old(Inner(p)), |old(free)|, Inner(p), |free|, Path(TRAMPOLINE), ok)
    {
      hide Inv, Look, Touched, Spent, Enough, Path, NodeKeys;
      ghost var s := S();
      ghost var k := Inner(p);
      ok := MapTop(p, TRAMPOLINE, Pte(tramp, true, false, true, false, false));
      ghost var u := S();
      ghost var k' := Inner(p);
      if !ok {
        StillShort(k, |s.free|, k', |free|, Path(TRAMPOLINE));
        Uvmfree(p, 0);
        TouchedTwice(s, u, S(), first, p);
        return;
      }
      ok := MapTop(p, TRAPFRAME, Pte(procs[p].slots[Tf].frame, true, true, false, false, false));
      TouchedTwice(s, u, S(), first, p);
      SpentTwice(k, |s.free|, k', |u.free|, Inner(p), |free|, Path(TRAMPOLINE), Path(TRAPFRAME), ok);
      SamePath();
      assert Path(TRAMPOLINE) + Path(TRAPFRAME) == Path(TRAMPOLINE);
      if !ok {
        StillShort(k, |s.free|, Inner(p), |free|, Path(TRAMPOLINE));
        ghost var v := S();
        Undo(p);
        TouchedTwice(s, v, S(), first, p);
      }
    }

    // proc_pagetable gives up with the trampoline mapped.
    method Undo(p: nat)
      requires Inv(S(), first) && p in procs && Shaped(procs[p].slots) && Root in procs[p].slots && Tf in procs[p].slots
      requires Leaf(TRAMPOLINE) in procs[p].slots && forall v: nat :: v != TRAMPOLINE ==> Leaf(v) !in procs[p].slots
      modifies this`page, this`counter, this`free, this`procs, this`refs
      ensures Touched(old(S()), S(), first, p) && Inv(S(), first) && p in procs
      ensures procs[p].slots.Keys == {Tf} && procs[p].slots[Tf] == old(procs)[p].slots[Tf]
    {
      hide Inv, Look, Touched;
      ghost var s := S();
      ShapedWithout(procs[p].slots, TRAMPOLINE);
      UnmapTop(p, TRAMPOLINE);
      ghost var t := S();
      Uvmfree(p, 0);
      TouchedTwice(s, t, S(), first, p);
    }

    method Uvmcreate(p: nat) returns (ok: bool)
      requires Inv(S(), first) && p in procs && procs[p].slots.Keys == {Tf} && Plain(procs[p].slots[Tf])
      modifies this`page, this`counter, this`free, this`procs, this`refs
      ensures Touched(old(S()), S(), first, p) && Inv(S(), first) && p in procs && Shaped(procs[p].slots)
      ensures procs[p].slots.Keys == if ok then {Tf, Root} else {Tf}
      ensures procs[p].slots[Tf] == old(procs)[p].slots[Tf]
      ensures Spent({Tf}, |old(free)|, Inner(p), |free|, {Root}, ok)
    {
      hide Inv, Look, Noded, Spent;
      ghost var s := S();
      SpentOne({Tf}, |free|, Root);
      Sizes(s, first);
      var r := Kalloc();
      if r.None? { return false; }
      var f := r.value;
      page := page[f := Filled(0)];
      procs := procs[p := procs[p].(slots := procs[p].slots[Root := Node(f)])];
      refs := refs[f := {At(p, Root)}];
      NodeAdded(s, first, p, Root);
      assert S() == Noded(s, first, p, Root) by { NodedIs(s, first, p, Root); }
      assert Inner(p) == {Tf} + {Root};
      ok := true;
    }

    // mappages of one kernel page.
    method MapTop(p: nat, v: nat, e: Pte) returns (ok: bool)
      requires Inv(S(), first) && p in procs && Shaped(procs[p].slots) && Root in procs[p].slots
      requires !Counted(Leaf(v)) && v < MAXVPN && Leaf(v) !in procs[p].slots && e.r
      modifies this`page, this`counter, this`free, this`procs, this`refs
      ensures Touched(old(S()), S(), first, p) && Inv(S(), first) && p in procs && Shaped(procs[p].slots)
      ensures forall t :: t in old(procs)[p].slots ==>
        t in procs[p].slots && procs[p].slots[t] == old(procs)[p].slots[t]
      ensures forall t :: t in procs[p].slots && t !in old(procs)[p].slots ==> t.L1? || t.L0? || (ok && t == Leaf(v))
      ensures ok ==> Leaf(v) in procs[p].slots && procs[p].slots[Leaf(v)] == e
      ensures Spent(old(Inner(p)), |old(free)|, Inner(p), |free|, Path(v), ok)
    {
      hide Inv, Look, Spent, Path, NodeKeys;
      ghost var s := S();
      ghost var g;
      ok, g := MapPage(p, v, e);
      SpentNodes(s.procs[p].slots, |s.free|, g.procs[p].slots, |g.free|, v, ok);
      LeafNodes(g.procs[p].slots, v, e);
      if ok {
        TopMapped(g, first, p, v, e);
        TouchedTwice(s, g, S(), first, p);
        ShapedLeaf(g.procs[p].slots, v, e);
      }
    }

    method AllocProc() returns (r: Option<nat>)
      requires Inv(S(), first)
      modifies this`page, this`counter, this`free, this`procs, this`refs
      ensures r.None? ==> Restored(old(S()), S(), first)
      ensures r.Some? ==> Beside(old(S()), S(), first, r.value) && r.value < NPROC && procs[r.value].sz == 0
      ensures r.Some? ==> Newborn(procs[r.value].slots, tramp)
      ensures r.Some? <==> Vacancy(old(S())) && Enough(|old(free)|, Skeleton(), {})
      ensures r.Some? ==> Spent({}, |old(free)|, Inner(r.value), |free|, Skeleton(), true)
    {
      hide Inv, Look, Beside, Restored, Gone, Touched, Taken, Spent, Enough, Skeleton, Path;
      ghost var s := S();
      var q := 0;
      while q < NPROC && q in procs
        invariant q <= NPROC && forall o :: 0 <= o < q ==> o in procs
      {
        q := q + 1;
      }
      if q == NPROC { RestoredNow(s, first); return None; }
      assert q !in s.procs;
      procs := procs[q := Proc(map[], 0)];
      EnteredBeside(s, first, q);
      ghost var t := S();
      var ok := AllocTrapframe(q);
      if !ok { NoSkeleton(); }
      if ok {
        ghost var u := S();
        BesideTouched(s, t, u, first, q);
        ok := ProcPagetable(q);
        SkeletonSpent(|s.free|, |u.free|, Inner(q), |free|, ok);
        TouchedSize(u, S(), first, q);
        BesideTouched(s, u, S(), first, q);
      }
      if !ok {
        ghost var u := S();
        BesideInv(s, u, first, q);
        FreeProc(q);
        BesideGone(s, u, S(), first, q);
        return None;
      }
      BesideInv(s, S(), first, q);
      r := Some(q);
    }

    method AllocTrapframe(q: nat) returns (ok: bool)
      requires Inv(S(), first) && q in procs && procs[q].slots == map[]
      modifies this`page, this`counter, this`free, this`procs, this`refs
      ensures if ok then Touched(old(S()), S(), first, q) else S() == old(S())
      ensures ok ==> Inv(S(), first) && q in procs && procs[q].sz == old(procs)[q].sz
      ensures ok ==> procs[q].slots.Keys == {Tf} && Plain(procs[q].slots[Tf])
      ensures ok <==> |old(free)| > 0
      ensures ok ==> |free| == |old(free)| - 1
    {
      hide Inv, Look;
      ghost var s := S();
      var k := Kalloc();
      if k.None? { return false; }
      var f := k.value;
      TfAdded(s, first, q);
      procs := procs[q := procs[q].(slots := procs[q].slots[Tf := Node(f)])];
      refs := refs[f := {At(q, Tf)}];
      assert S() == Placed(Taken(s, first), q, Tf, Node(f));
      ok := true;
    }

    method Uvmcopy(p: nat, q: nat, sz: nat) returns (ok: bool)
      requires Inv(S(), first) && p in procs && q in procs && p != q && Pages(sz) <= TRAPFRAME
      requires Shaped(procs[p].slots) && Mapped(procs[p].slots, Pages(sz), 0, 0)
      requires Newborn(procs[q].slots, tramp)
      modifies this`page, this`counter, this`free, this`procs, this`refs
      ensures Copying(old(S()), S(), first, p, q, if ok then Pages(sz) else 0) && q in procs
      ensures ok <==> Enough(|old(free)|, Nodes(0, Pages(sz)), old(Inner(q)))
      ensures ok ==> Spent(old(Inner(q)), |old(free)|, Inner(q), |free|, Nodes(0, Pages(sz)), true)
    {
      hide Inv, Look, Copying, Softer, Shaped, Spent, Enough, Nodes, Path, NodeKeys;
      ghost var s := S();
      CopyingStart(s, first, p, q);
      ghost var k := Inner(q);
      SpentNone(k, |free|);
      NoRegion(0);
      var i := 0;
      while i * PGSIZE < sz
        invariant i <= Pages(sz) && Copying(s, S(), first, p, q, i) && q in procs
        invariant Spent(k, |s.free|, Inner(q), |free|, Nodes(0, i), true)
      {
        ghost var k1, f1 := Inner(q), |free|;
        ok := CopyPage(s, p, q, i);
        NodesSpent(k, |s.free|, k1, f1, Inner(q), |free|, i, Pages(sz), ok);
        if !ok {
          ghost var t := S();
          CopyingParts(s, t, first, p, q, i);
          UvmUnmap(q, 0, i);
          CopyingBack(s, t, S(), first, p, q, i);
          return;
        }
        i := i + 1;
      }
      EnoughSpent(k, |s.free|, Inner(q), |free|, Nodes(0, i));
      ok := true;
    }

    // One page of uvmcopy.
    method CopyPage(ghost s: State, p: nat, q: nat, i: nat) returns (ok: bool)
      requires Copying(s, S(), first, p, q, i) && i < TRAPFRAME && Shaped(s.procs[p].slots)
        && Leaf(i) in s.procs[p].slots
      requires Newborn(s.procs[q].slots, tramp)
      modifies this`page, this`counter, this`free, this`procs, this`refs
      ensures Copying(s, S(), first, p, q, if ok then i + 1 else i) && q in procs && q in old(procs)
      ensures Spent(old(Inner(q)), |old(free)|, Inner(q), |free|, Path(i), ok)
    {
      hide Inv, Look, Copying, Mapped, Softer, Shaped, Spent, Path, NodeKeys;
      ghost var t := S();
      CopyingParts(s, t, first, p, q, i);
      var e := procs[p].slots[Leaf(i)];
      SoftenKeeps(t, first, p, i);
      if e.w {
        e := e.(w := false, cow := true);
        procs := procs[p := procs[p].(slots := procs[p].slots[Leaf(i) := e])];
      }
      assert S() == Softened(t, p, i);
      ghost var g;
      ok, g := MapPage(q, i, e);
      SpentNodes(t.procs[q].slots, |t.free|, g.procs[q].slots, |g.free|, i, ok);
      LeafNodes(g.procs[q].slots, i, e);
      if !ok {
        PageNotShared(s, t, g, first, p, q, i);
        return;
      }
      PageShared(s, t, g, first, p, q, i);
      IncreaseCount(e.frame);
      refs := refs[e.frame := refs[e.frame] + {At(q, Leaf(i))}];
      assert S() == Shared(g, p, q, i);
    }

    method Fork(p: nat) returns (r: Option<nat>)
      requires Valid() && p in procs
      modifies this
      ensures Valid() && p in old(mem)
      ensures r.None? ==> mem == old(mem) && SameFrames(old(S()), S()) && Refunded(old(S()), S(), first)
      ensures r.Some? ==> r.value !in old(mem) && mem == old(mem)[r.value := old(mem)[p]]
      ensures r.Some? ==> Returned(S(), p, r.value) && Locked(procs[p].slots) && Locked(procs[r.value].slots)
      ensures r.Some? <==> Vacancy(old(S())) && |old(free)| >= ForkCost(old(procs)[p].sz)
      ensures r.Some? ==> |free| == |old(free)| - ForkCost(old(procs)[p].sz)
    {
      hide ForkCost, Vacancy, Spent, Enough, Skeleton, Nodes, NodeKeys, Inv, Look, Shaped, Mapped, Sound, Agree,
          Beside, Copying, Restored, Gone, SameFrames, Newborn, Quiet, Returned, Refunded, Locked;
      ghost var s := S();
      Ready(s, first, tramp, mem, p);
      PriceOf(s, first, tramp, p);
      r := AllocProc();
      if r.None? {
        RestoredSound(s, S(), first, tramp, mem);
        NothingLeaks(s, S(), first);
        return;
      }
      var q := r.value;
      ghost var t := S();
      BesideParts(s, t, first, tramp, p, q);
      ghost var k := Inner(q);
      var ok := Uvmcopy(p, q, procs[p].sz);
      ForkSpent(|s.free|, k, |t.free|, Inner(q), |free|, Pages(s.procs[p].sz), ok);
      ghost var u := S();
      if !ok {
        CopyingFree(t, u, first, tramp, p, q);
        FreeProc(q);
        ForkFailed(s, t, u, S(), first, tramp, mem, p, q);
        NothingLeaks(s, S(), first);
        return None;
      }
      ForkDone(s, t, u, first, tramp, mem, p, q);
      procs := procs[q := procs[q].(sz := procs[p].sz)];
      mem := mem[q := mem[p]];
      CopyTrapframe(p, q);
    }

    // The child's registers are the parent's, except that fork returns 0 there.
    method CopyTrapframe(p: nat, q: nat)
      requires Valid() && p in procs && q in procs && p != q
      modifies this`page
      ensures Valid() && Returned(S(), p, q)
    {
      hide Inv, Look, Shaped, Mapped, Sound, Agree;
      TrapframeOf(S(), first, tramp, p);
      TrapframeOf(S(), first, tramp, q);
      var f, g := procs[p].slots[Tf].frame, procs[q].slots[Tf].frame;
      assert f != g by { assert At(p, Tf) in refs[f] && At(p, Tf) !in refs[g]; }
      var regs := page[f][..A0] + [0, 0, 0, 0, 0, 0, 0, 0] + page[f][A0 + 8..TRAPFRAME_SIZE];
      TrapframeFilled(S(), first, tramp, mem, q, regs + page[g][TRAPFRAME_SIZE..]);
      page := page[g := regs + page[g][TRAPFRAME_SIZE..]];
    }

    // A process with no memory, as userinit starts from.
    method Spawn() returns (r: Option<nat>)
      requires Valid()
      modifies this
      ensures Valid()
      ensures r.None? ==> mem == old(mem) && SameFrames(old(S()), S()) && Refunded(old(S()), S(), first)
      ensures r.Some? ==> r.value !in old(mem) && mem == old(mem)[r.value := Mem([], 0)]
      ensures r.Some? <==> Vacancy(old(S())) && |old(free)| >= 4
      ensures r.Some? ==> r.value in procs && Inner(r.value) == Skeleton() && |free| == |old(free)| - 4
    {
      SkeletonSize();
      hide Skeleton, NodeKeys, Vacancy, Inv, Look, Sound, Agree, Beside, Restored, SameFrames, Newborn, Quiet, Refunded;
      ghost var s := S();
      SoundParts(s, first, tramp);
      r := AllocProc();
      if r.None? {
        RestoredSound(s, S(), first, tramp, mem);
        NothingLeaks(s, S(), first);
        return;
      }
      Spawned(s, S(), first, tramp, mem, r.value);
      assert {} + Skeleton() == Skeleton();
      mem := mem[r.value := Mem([], 0)];
    }

    // A process is freed with all its memory.
    method Reap(p: nat)
      requires Valid() && p in procs
      modifies this
      ensures Valid() && mem == old(mem) - {p} && FreedState(old(S()), S(), first, p)
    {
      hide Quiet, Inv, Look, Sound, Agree, Gone, Shaped, Mapped, Pages;
      ghost var s := S();
      Ready(s, first, tramp, mem, p);
      ReadyTop(s, first, tramp, p);
      FreeProc(p);
      Reaped(s, S(), first, tramp, mem, p);
      mem := mem - {p};
    }

    /** One operation of a run does to the address spaces what the eager machine does,
        and is refused only where it must be. */
    method Step(op: Op) returns (out: Outcome)
      requires Valid()
      modifies this
      ensures Valid() && mem == Act(old(mem), op, out) && Honest(old(mem), op, out)
      ensures Justified(old(S()), old(mem), op, out)
    {
      hide Inv, Look, Sound, Resized, Stored, Storable, Readable, SameFrames, Refunded, OnlyInterior, Returned, Got,
        AllStorable, CanGrow, ForkCost, Vacancy, Locked, CopyReaches, GrowthStaysOut, SeenAt;
      out := Outcome(false, 0, 0, []);
      match op
      case Spawn =>
        var r := Spawn();
        if r.Some? { out := out.(ok := true, child := r.value); }
      case Fork(p) =>
        if p in procs {
          var r := Fork(p);
          if r.Some? { out := out.(ok := true, child := r.value); }
        }
      case Grow(p, n) =>
        if p in procs && -0x8000_0000 <= n < 0x8000_0000 {
          var r := Growproc(p, n);
          out := out.(ok := r == 0);
        }
      case Store(p, va, b) =>
        if p in procs {
          var ok := UserStore(p, va, b);
          out := out.(ok := ok);
        }
      case CopyOut(p, va, data) =>
        if p in procs {
          var r, wrote := Copyout(p, va, data);
          out := out.(ok := r == 0, wrote := wrote);
        }
      case CopyIn(p, va, len) =>
        if p in procs {
          var r, dst := Copyin(p, va, len);
          out := out.(ok := r == 0, got := dst);
        }
      case Free(p) =>
        if p in procs {
          Reap(p);
          out := out.(ok := true);
        } else {
          assert mem - {p} == mem;
        }
    }

    /** Copy-on-write refines eager copying: over any run the address spaces are those of the
        machine that copies every page at fork, and in each of the states the run goes
        through an operation is refused only where it must be. */
    method Execute(ops: seq<Op>) returns (outs: seq<Outcome>, ghost states: seq<State>)
      requires Valid()
      modifies this
      ensures Valid() && |outs| == |ops| && mem == Run(old(mem), ops, outs) && AllWell(old(mem))
      ensures |states| == |ops| + 1 && states[0] == old(S()) && states[|ops|] == S()
      ensures forall i :: 0 <= i < |ops| ==> Explained(old(mem), states, ops, outs, i)
    {
      hide Sound, Agree, Act, Honest, Justified, AllWell;
      AllWellMem(S(), first, tramp, mem);
      outs, states := [], [S()];
      for i := 0 to |ops|
        invariant Valid() && |outs| == i && mem == Run(old(mem), ops[..i], outs)
        invariant |states| == i + 1 && states[0] == old(S()) && states[i] == S()
        invariant forall k :: 0 <= k < i ==> Explained(old(mem), states, ops, outs, k)
      {
        ghost var s, m := S(), mem;
        var out := Step(ops[i]);
        assert ops[..i + 1][..i] == ops[..i] && (outs + [out])[..i] == outs;
        forall k | 0 <= k <= i ensures Explained(old(mem), states + [S()], ops, outs + [out], k) {
          assert k < i ==> Explained(old(mem), states, ops, outs, k);
          assert (outs + [out])[..k] == outs[..k];
        }
        outs, states := outs + [out], states + [S()];
      }
      assert ops[..|ops|] == ops;
    }
  }

  // The i-th outcome of a run fits the address spaces and the state before it.
  ghost predicate Explained(mem: Machine, states: seq<State>, ops: seq<Op>, outs: seq<Outcome>, i: nat) {
    && i < |ops| && i < |outs| && i + 1 < |states|
    && var m := Run(mem, ops[..i], outs[..i]);
       Honest(m, ops[i], outs[i]) && Justified(states[i], m, ops[i], outs[i])
  }

  method StoreAtZeroRefused(k: Kernel, p: nat, b: int) returns (child: Option<nat>, parentOk: bool, childOk: bool)
    requires k.Valid() && p in k.procs && p in k.mem && Storable(k.mem[p], 0)
    modifies k
    ensures k.Valid() && p in k.mem && Storable(k.mem[p], 0)
    ensures child.Some? ==> child.value in k.mem && Storable(k.mem[child.value], 0) && !parentOk && !childOk
  {
    hide Sound, Fits, Storable, Stored, Returned, SameFrames, Refunded;
    parentOk, childOk := false, false;
    child := k.Fork(p);
    if child.Some? {
      assert !k.Resident(p, 0) && !k.Resident(child.value, 0);
      parentOk := k.UserStore(p, 0, b);
      childOk := k.UserStore(child.value, 0, b);
    }
  }

  /** A refused growth loses nothing for good: once the process is freed, counters and free frames
      are those that freeing it at once would have left. */
  method GrowThenReap(k: Kernel, p: nat, n: int) returns (r: int)
    requires k.Valid() && p in k.procs && -0x8000_0000 <= n < 0x8000_0000
    modifies k
    ensures k.Valid()
    ensures r == -1 ==> forall u :: FreedState(old(k.S()), u, k.first, p) ==> Refunded(u, k.S(), k.first)
  {
    hide Inv, Quiet, Sound, Agree, Refunded, OnlyInterior, GrowthStaysOut, CanGrow, Resized;
    ghost var s := k.S();
    SoundParts(s, k.first, k.tramp);
    r := k.Growproc(p, n);
    ghost var t := k.S();
    StillThere(t, k.mem, p);
    k.Reap(p);
    if r == -1 {
      forall u | FreedState(s, u, k.first, p) ensures Refunded(u, k.S(), k.first) {
        ReapedAlike(s, t, u, k.S(), k.first, p);
      }
    }
  }

  lemma StillThere(s: State, mem: Machine, p: nat)
    requires Agree(s, mem) && p in mem
    ensures p in s.procs
  {
  }

  // A new process with two frames left over cannot grow by a byte, and comes to a missing interior page.
  lemma TinyGrowth(s: State, first: nat, tramp: nat, mem: Machine, q: nat)
    requires Sound(s, first, tramp) && Agree(s, mem) && q in mem && mem[q] == Mem([], 0)
    requires q in s.procs && NodeKeys(s.procs[q].slots) == Skeleton() && |s.free| == 2
    ensures !CanGrow(s, q, 1) && !GrowthStaysOut(s, q, 1)
  {
    hide Inv, Sound, Agree, NodeKeys, Skeleton, Region, NothingStays, Enough;
    Ready(s, first, tramp, mem, q);
    NotYet(s.procs[q].slots, 0);
    FirstPage(s.procs[q].slots);
    assert Pages(0) == 0 && Pages(1) == 1;
  }

  /** A growth of one byte that is refused and keeps a frame: a new process, two frames left.
      before is the state that the growth found. */
  method RefusedGrowthKeepsPage(junk: seq<seq<int>>) returns (k: Kernel, q: nat, r: int, ghost before: State)
    requires |junk| == 7 && forall f :: 0 <= f < 7 ==> |junk[f]| == PGSIZE
    ensures fresh(k) && k.Valid() && r == -1 && q in k.procs && |before.free| == 2
    ensures OnlyInterior(before, k.S(), q) && !Refunded(before, k.S(), k.first)
  {
    k := new Kernel(7, 1, 0, junk);
    hide Inv, Look, Sound, Agree, NodeKeys, Skeleton, SameFrames, Refunded, OnlyInterior, GrowthStaysOut, CanGrow,
        Resized;
    NoProcs(k.S(), k.mem);
    var p := k.Spawn();
    q := p.value;
    before := k.S();
    TinyGrowth(before, k.first, k.tramp, k.mem, q);
    r := k.Growproc(q, 1);
    StillThere(k.S(), k.mem, q);
  }

  lemma NoProcs(s: State, mem: Machine)
    requires Agree(s, mem) && mem == map[]
    ensures Vacancy(s)
  {
    assert 0 !in s.procs.Keys;
  }
}
