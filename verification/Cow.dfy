/** How one step of the virtual memory code changes frames and tables, and the
    eager-copy machine that copy-on-write is compared with. */
module Cow {
  import opened Options
  import opened Sets
  import opened Frames

  const NPTE: nat := 512             // entries in one page of a table
  const NFRAME: nat := 32768         // frames between KERNBASE and PHYSTOP

  type Slots = map<Slot, Pte>

  function Node(f: nat): Pte { Pte(f, false, false, false, false, false) }

  predicate Plain(e: Pte) { !e.r && !e.w && !e.x && !e.u && !e.cow }

  /** The slots of a process form a three-level tree below the root. */
  ghost predicate Shaped(m: Slots) {
    forall slot :: slot in m ==> match slot
      case Root => Plain(m[slot])
      case Tf => Plain(m[slot])
      case L1(i) => i < NPTE && Root in m && Plain(m[slot])
      case L0(j) => j < NPTE * NPTE && L1(j / NPTE) in m && Plain(m[slot])
      case Leaf(v) => v < MAXVPN && L0(v / NPTE) in m && m[slot].r
  }

  // The user pages are those below n, except a to i.
  ghost predicate Mapped(m: Slots, n: nat, a: nat, i: nat) {
    forall v: nat :: v < TRAPFRAME ==> (Leaf(v) in m <==> v < n && !(a <= v < i))
  }

  function Pages(sz: nat): nat { (sz + PGSIZE - 1) / PGSIZE }

  // The two kernel pages at the top of every address space.
  ghost predicate Topped(m: Slots, tramp: nat) {
    && Leaf(TRAMPOLINE) in m && m[Leaf(TRAMPOLINE)].frame == tramp && !m[Leaf(TRAMPOLINE)].u
    && Leaf(TRAPFRAME) in m && Tf in m && m[Leaf(TRAPFRAME)].frame == m[Tf].frame && !m[Leaf(TRAPFRAME)].u
  }

  ghost predicate Whole(pr: Proc, tramp: nat) {
    && Shaped(pr.slots) && Root in pr.slots && Topped(pr.slots, tramp)
    && Pages(pr.sz) <= TRAPFRAME && Mapped(pr.slots, Pages(pr.sz), 0, 0)
  }

  // No frame is held by a kernel local only.
  ghost predicate Quiet(s: State, first: nat) {
    forall f {:trigger s.refs[f]} :: InPool(s, first, f) ==> Temp !in s.refs[f]
  }

  // The same frames are held by kernel locals, and hold the same bytes.
  ghost predicate SameHeld(s: State, s': State, first: nat) {
    && |s'.refs| == |s.refs| == |s.page| == |s'.page|
    && forall f {:trigger s'.refs[f]} {:trigger s.refs[f]} :: InPool(s, first, f) ==>
         (Temp in s'.refs[f] <==> Temp in s.refs[f]) && (Temp in s.refs[f] ==> s'.page[f] == s.page[f])
  }

  // Everything outside process p is as before.
  ghost predicate Others(s: State, s': State, p: nat) {
    && p in s.procs && s'.procs.Keys == s.procs.Keys
    && |s'.refs| == |s.refs|
    && s'.procs[p].sz == s.procs[p].sz
    && (forall o :: o in s.procs && o != p ==> s'.procs[o] == s.procs[o])
    && (forall o, v: nat :: o != p ==> Look(s', o, v) == Look(s, o, v))
  }

  // p's table may have gained interior pages; its mappings are as before.
  ghost predicate Grew(s: State, s': State, first: nat, p: nat) {
    && Inv(s', first) && Others(s, s', p) && SameHeld(s, s', first) && Shaped(s'.procs[p].slots)
    && (forall v: nat :: Look(s', p, v) == Look(s, p, v))
    && (forall t :: t in s.procs[p].slots ==> t in s'.procs[p].slots && s'.procs[p].slots[t] == s.procs[p].slots[t])
    && (forall t :: t in s'.procs[p].slots && t !in s.procs[p].slots ==> t.L1? || t.L0?)
  }

  lemma GrewNothing(s: State, first: nat, p: nat)
    requires Inv(s, first) && p in s.procs && Shaped(s.procs[p].slots)
    ensures Grew(s, s, first, p)
  {
  }

  lemma GrewTwice(s: State, t: State, u: State, first: nat, p: nat)
    requires Grew(s, t, first, p) && Grew(t, u, first, p)
    ensures Grew(s, u, first, p)
  {
    hide Inv, Look, Shaped;
  }

  // What walk does where an interior page is missing.
  ghost function Noded(s: State, first: nat, p: nat, slot: Slot): State
    requires Inv(s, first) && s.free != [] && p in s.procs
  {
    var t := Taken(s, first);
    var f := Head(s, first);
    Placed(t.(page := t.page[f := Filled(0)]), p, slot, Node(f))
  }

  // A frame just taken is blank to everyone.
  lemma FillTemp(s: State, first: nat, f: nat, bytes: seq<int>)
    requires Inv(s, first) && InPool(s, first, f) && s.refs[f] == {Temp} && |bytes| == PGSIZE
    ensures Inv(s.(page := s.page[f := bytes]), first)
    ensures forall p, v: nat :: Look(s.(page := s.page[f := bytes]), p, v) == Look(s, p, v)
  {
    FillKeeps(s, first, f, bytes);
    var s' := s.(page := s.page[f := bytes]);
    assert Temp in s.refs[f];
    forall p, v: nat ensures Look(s', p, v) == Look(s, p, v) {
      if Has(s, p, Leaf(v)) && v < TRAPFRAME { assert Entry(s, p, Leaf(v)).frame != f; }
    }
  }

  lemma NodeAdded(s: State, first: nat, p: nat, slot: Slot)
    requires Inv(s, first) && s.free != [] && p in s.procs && slot !in s.procs[p].slots && !slot.Leaf?
    ensures var s' := Noded(s, first, p, slot);
      Inv(s', first) && Others(s, s', p) && SameHeld(s, s', first) && (forall v: nat :: Look(s', p, v) == Look(s, p, v))
  {
    var t, f := Taken(s, first), Head(s, first);
    TakeKeeps(s, first);
    var t' := t.(page := t.page[f := Filled(0)]);
    FillTemp(t, first, f, Filled(0));
    PlaceKeeps(t', first, p, slot, Node(f));
    hide Inv, Look;
  }

  lemma NodeGrew(s: State, first: nat, p: nat, slot: Slot)
    requires Inv(s, first) && s.free != [] && p in s.procs && slot !in s.procs[p].slots
    requires Shaped(s.procs[p].slots)
    requires match slot case L1(i) => i < NPTE && Root in s.procs[p].slots
                        case L0(j) => j < NPTE * NPTE && L1(j / NPTE) in s.procs[p].slots
                        case _ => false
    ensures Grew(s, Noded(s, first, p, slot), first, p)
  {
    hide Inv, Look;
    NodeAdded(s, first, p, slot);
  }

  // A leaf of p was added or replaced; nothing else shows.
  ghost predicate Edited(s: State, s': State, first: nat, p: nat, v: nat) {
    && Inv(s', first) && Others(s, s', p) && SameHeld(s, s', first)
    && (forall u: nat :: u != v ==> Look(s', p, u) == Look(s, p, u))
    && (forall t :: t in s.procs[p].slots && t != Leaf(v) ==>
         t in s'.procs[p].slots && s'.procs[p].slots[t] == s.procs[p].slots[t])
    && (forall t :: t in s'.procs[p].slots && t != Leaf(v) && t !in s.procs[p].slots ==> t.L1? || t.L0?)
  }

  ghost function Blank(s: State, first: nat, bytes: seq<int>): State
    requires Inv(s, first) && s.free != []
  {
    var t := Taken(s, first);
    t.(page := t.page[Head(s, first) := bytes])
  }

  // kalloc and memset: the new frame belongs to the kernel.
  lemma BlankKeeps(s: State, first: nat, bytes: seq<int>)
    requires Inv(s, first) && s.free != [] && |bytes| == PGSIZE
    ensures Inv(Blank(s, first, bytes), first)
    ensures forall p, v: nat :: Look(Blank(s, first, bytes), p, v) == Look(s, p, v)
  {
    TakeKeeps(s, first);
    FillTemp(Taken(s, first), first, Head(s, first), bytes);
  }

  lemma BlankTakes(s: State, first: nat, bytes: seq<int>)
    requires Inv(s, first) && s.free != []
    ensures Blank(s, first, bytes).procs == s.procs && |Blank(s, first, bytes).free| == |s.free| - 1
    ensures Blank(s, first, bytes).refs == s.refs[Head(s, first) := {Temp}]
    ensures |Blank(s, first, bytes).counter| == |s.counter| && |Blank(s, first, bytes).page| == |s.page|
  {
  }

  // One page of uvmalloc: blank frame, interior pages, leaf.
  lemma PageAdded(s: State, g: State, first: nat, p: nat, v: nat, bytes: seq<int>, e: Pte)
    requires Inv(s, first) && s.free != [] && p in s.procs && v < TRAPFRAME && |bytes| == PGSIZE && !e.cow
    requires Grew(Blank(s, first, bytes), g, first, p) && Leaf(v) !in s.procs[p].slots && e.frame == Head(s, first)
    ensures e.frame < |g.refs| && Edited(s, Placed(g, p, Leaf(v), e), first, p, v)
    ensures Look(Placed(g, p, Leaf(v), e), p, v) == Some(View(bytes, e.r, e.w, e.x, e.u))
  {
    var t, f := Blank(s, first, bytes), Head(s, first);
    BlankKeeps(s, first, bytes);
    TempAlone(g, first, f) by {
      assert Temp in t.refs[f];
    }
    PlaceKeeps(g, first, p, Leaf(v), e);
    var s' := Placed(g, p, Leaf(v), e);
    assert Others(s, s', p) && (forall u: nat :: u != v ==> Look(s', p, u) == Look(s, p, u)) by {
      hide Inv, Look;
    }
    forall h | InPool(s, first, h)
      ensures (Temp in s'.refs[h] <==> Temp in s.refs[h]) && (Temp in s.refs[h] ==> s'.page[h] == s.page[h])
    {
      assert h != f ==> t.refs[h] == s.refs[h] && t.page[h] == s.page[h];
    }
  }

  lemma TempAlone(s: State, first: nat, f: nat)
    requires Inv(s, first) && InPool(s, first, f) && Temp in s.refs[f]
    ensures s.refs[f] == {Temp}
  {
  }

  // The page could not be mapped, and its frame goes back.
  lemma PageRefused(s: State, g: State, first: nat, p: nat, bytes: seq<int>)
    requires Inv(s, first) && s.free != [] && p in s.procs && |bytes| == PGSIZE
    requires Grew(Blank(s, first, bytes), g, first, p)
    ensures Head(s, first) < |g.refs| == |g.counter| == |g.page| && Grew(s, TempDropped(g, Head(s, first)), first, p)
  {
    var t, f := Blank(s, first, bytes), Head(s, first);
    BlankKeeps(s, first, bytes);
    TempAlone(g, first, f) by {
      assert Temp in t.refs[f];
    }
    DropTempKeeps(g, first, f);
    var s' := TempDropped(g, f);
    assert Others(s, s', p) && (forall v: nat :: Look(s', p, v) == Look(s, p, v)) by {
      hide Inv, Look;
    }
    forall h | InPool(s, first, h)
      ensures (Temp in s'.refs[h] <==> Temp in s.refs[h]) && (Temp in s.refs[h] ==> s'.page[h] == s.page[h])
    {
      assert h != f ==> t.refs[h] == s.refs[h] && t.page[h] == s.page[h];
    }
  }

  // A dropped slot is no kernel local's.
  lemma DropHeld(s: State, first: nat, p: nat, slot: Slot)
    requires Inv(s, first) && Has(s, p, slot) && Counted(slot)
    ensures InPool(s, first, Entry(s, p, slot).frame) && |s.refs| == |s.counter| == |s.page|
    ensures SameHeld(s, Dropped(s, p, slot), first) && |Dropped(s, p, slot).refs| == |s.refs|
  {
    assert At(p, slot) in s.refs[Entry(s, p, slot).frame];
    hide CountsMatch, FreeMatch;
  }

  lemma LeafDropped(s: State, first: nat, p: nat, v: nat)
    requires Inv(s, first) && Has(s, p, Leaf(v)) && v < TRAPFRAME
    ensures InPool(s, first, Entry(s, p, Leaf(v)).frame)
    ensures Edited(s, Dropped(s, p, Leaf(v)), first, p, v)
  {
    hide Inv, Look, SameHeld;
    DropKeeps(s, first, p, Leaf(v));
    DropLooks(s, first, p, Leaf(v));
    DropHeld(s, first, p, Leaf(v));
  }

  // Entries that only lost their write permission to copy-on-write.
  ghost predicate Softer(m: Slots, m': Slots) {
    && m'.Keys == m.Keys
    && forall k :: k in m ==>
         m'[k] == m[k] || (k.Leaf? && k.v < TRAPFRAME && m[k].w && m'[k] == m[k].(w := false, cow := true))
  }

  lemma SofterWhole(pr: Proc, pr': Proc, tramp: nat)
    requires Whole(pr, tramp) && pr'.sz == pr.sz && Softer(pr.slots, pr'.slots)
    ensures Whole(pr', tramp)
  {
    assert forall k :: k in pr'.slots <==> k in pr.slots;
  }

  // uvmcopy has given q the first i pages of p.
  ghost predicate Copying(s: State, s': State, first: nat, p: nat, q: nat, i: nat) {
    Inv(s', first) && SameHeld(s, s', first) && CopyTables(s, s', p, q, i) && CopyLooks(s, s', p, q, i)
  }

  ghost predicate ReadOnly(m: Slots, n: nat) { forall v: nat :: v < n && Leaf(v) in m ==> !m[Leaf(v)].w }

  ghost predicate CopyTables(s: State, s': State, p: nat, q: nat, i: nat) {
    && p != q && p in s.procs && q in s.procs && s'.procs.Keys == s.procs.Keys
    && (forall o :: o in s.procs && o != p && o != q ==> s'.procs[o] == s.procs[o])
    && s'.procs[p].sz == s.procs[p].sz && s'.procs[q].sz == s.procs[q].sz
    && Softer(s.procs[p].slots, s'.procs[p].slots)
    && Shaped(s'.procs[q].slots) && Mapped(s'.procs[q].slots, i, 0, 0)
    && ReadOnly(s'.procs[p].slots, i) && ReadOnly(s'.procs[q].slots, i)
    && (forall t :: t in s.procs[q].slots ==> t in s'.procs[q].slots && s'.procs[q].slots[t] == s.procs[q].slots[t])
  }

  ghost predicate CopyLooks(s: State, s': State, p: nat, q: nat, i: nat) {
    && (forall o, v: nat :: o != q ==> Look(s', o, v) == Look(s, o, v))
    && (forall v: nat :: v < i ==> Look(s', q, v) == Look(s, p, v))
  }

  ghost function Softened(s: State, p: nat, v: nat): State
    requires Has(s, p, Leaf(v))
  {
    if Entry(s, p, Leaf(v)).w then Protected(s, p, v) else s
  }

  lemma SoftenKeeps(s: State, first: nat, p: nat, v: nat)
    requires Inv(s, first) && Has(s, p, Leaf(v)) && v < TRAPFRAME
    ensures Inv(Softened(s, p, v), first) && SameHeld(s, Softened(s, p, v), first)
    ensures forall o, u: nat :: Look(Softened(s, p, v), o, u) == Look(s, o, u)
    ensures Softer(s.procs[p].slots, Softened(s, p, v).procs[p].slots)
    ensures Has(Softened(s, p, v), p, Leaf(v)) && !Entry(Softened(s, p, v), p, Leaf(v)).w
  {
    if Entry(s, p, Leaf(v)).w { ProtectKeeps(s, first, p, v); }
  }

  lemma SharedLeaf(g: State, first: nat, p: nat, q: nat, v: nat)
    requires Inv(g, first) && Has(g, p, Leaf(v)) && v < TRAPFRAME && !Entry(g, p, Leaf(v)).w
    requires q in g.procs && p != q && !Has(g, q, Leaf(v))
    ensures InPool(g, first, Entry(g, p, Leaf(v)).frame)
    ensures Edited(g, Shared(g, p, q, v), first, q, v) && Look(Shared(g, p, q, v), q, v) == Look(g, p, v)
  {
    hide Tables, FreeMatch, CountsMatch, FullPages, Look;
    ShareKeeps(g, first, p, q, v);
    ShareLooks(g, first, p, q, v);
    var s' := Shared(g, p, q, v);
    assert SameHeld(g, s', first);
  }

  lemma Sizes(s: State, first: nat)
    requires Inv(s, first)
    ensures |s.refs| == |s.counter| == |s.page|
  {
  }

  // One turn of uvmcopy's loop: protect, grow the child's table, share.
  lemma PageShared(s: State, t: State, g: State, first: nat, p: nat, q: nat, i: nat)
    requires Copying(s, t, first, p, q, i) && i < TRAPFRAME && Has(t, p, Leaf(i))
    requires Grew(Softened(t, p, i), g, first, q) && L0(i / NPTE) in g.procs[q].slots && Shaped(s.procs[p].slots)
    ensures Has(g, p, Leaf(i)) && InPool(g, first, Entry(g, p, Leaf(i)).frame) && Leaf(i) !in g.procs[q].slots
    ensures |g.refs| == |g.counter| && Copying(s, Shared(g, p, q, i), first, p, q, i + 1)
  {
    hide Inv, Look, Shaped, Mapped, Softer;
    var u := Softened(t, p, i);
    SoftenKeeps(t, first, p, i);
    assert g.procs[p] == u.procs[p];
    Sizes(g, first);
    ChildLacks(t, u, g, first, p, q, i);
    SharedLeaf(g, first, p, q, i);
    PageSharedTables(s, t, g, first, p, q, i);
  }

  lemma ChildLacks(t: State, u: State, g: State, first: nat, p: nat, q: nat, i: nat)
    requires p != q && q in t.procs && Mapped(t.procs[q].slots, i, 0, 0) && u.procs.Keys == t.procs.Keys
    requires u.procs[q] == t.procs[q] && Grew(u, g, first, q) && i < TRAPFRAME
    ensures Leaf(i) !in g.procs[q].slots && Mapped(g.procs[q].slots, i, 0, 0)
    ensures ReadOnly(t.procs[q].slots, i) ==> ReadOnly(g.procs[q].slots, i)
  {
  }

  lemma ShapedLeaf(m: Slots, v: nat, e: Pte)
    requires Shaped(m) && v < MAXVPN && L0(v / NPTE) in m && e.r
    ensures Shaped(m[Leaf(v) := e])
  {
  }

  lemma MappedNext(m: Slots, i: nat, e: Pte)
    requires Mapped(m, i, 0, 0)
    ensures Mapped(m[Leaf(i) := e], i + 1, 0, 0)
    ensures ReadOnly(m, i) && !e.w ==> ReadOnly(m[Leaf(i) := e], i + 1)
  {
  }

  lemma SofterNext(m: Slots, m': Slots, i: nat)
    requires Softer(m, m') && Leaf(i) in m' && i < TRAPFRAME
    ensures var m'' := if m'[Leaf(i)].w then m'[Leaf(i) := m'[Leaf(i)].(w := false, cow := true)] else m';
      Softer(m, m'') && (ReadOnly(m', i) ==> ReadOnly(m'', i + 1))
  {
  }

  lemma PageSharedTables(s: State, t: State, g: State, first: nat, p: nat, q: nat, i: nat)
    requires CopyTables(s, t, p, q, i) && i < TRAPFRAME && Has(t, p, Leaf(i))
    requires Grew(Softened(t, p, i), g, first, q) && L0(i / NPTE) in g.procs[q].slots && Shaped(s.procs[p].slots)
    requires Has(g, p, Leaf(i)) && Entry(g, p, Leaf(i)).frame < |g.refs| == |g.counter|
    ensures CopyTables(s, Shared(g, p, q, i), p, q, i + 1)
  {
    hide Inv, Look, Shaped, Mapped, Softer, ReadOnly;
    var u, s' := Softened(t, p, i), Shared(g, p, q, i);
    var e := g.procs[p].slots[Leaf(i)];
    assert s'.procs[q].slots == g.procs[q].slots[Leaf(i) := e];
    SofterNext(s.procs[p].slots, t.procs[p].slots, i);
    assert e.r by { LeafReadable(s.procs[p].slots, t.procs[p].slots, i); }
    ShapedLeaf(g.procs[q].slots, i, e);
    ChildLacks(t, u, g, first, p, q, i);
    MappedNext(g.procs[q].slots, i, e);
  }

  lemma LeafReadable(m: Slots, m': Slots, i: nat)
    requires Shaped(m) && Softer(m, m') && Leaf(i) in m'
    ensures m'[Leaf(i)].r
  {
  }

  // The fault handler's exchange: a private copy for a share of the old frame.
  ghost function Copied(s: State, first: nat, p: nat, v: nat): State
    requires Inv(s, first) && s.free != [] && Has(s, p, Leaf(v)) && v < TRAPFRAME
  {
    var e := Entry(s, p, Leaf(v));
    LeafInPool(s, first, p, v);
    var t := Blank(s, first, s.page[e.frame]);
    Placed(Dropped(t, p, Leaf(v)), p, Leaf(v), e.(frame := Head(s, first), w := true, cow := false))
  }

  lemma LeafInPool(s: State, first: nat, p: nat, v: nat)
    requires Inv(s, first) && Has(s, p, Leaf(v)) && v < TRAPFRAME
    ensures InPool(s, first, Entry(s, p, Leaf(v)).frame) && |s.page[Entry(s, p, Leaf(v)).frame]| == PGSIZE
    ensures At(p, Leaf(v)) in s.refs[Entry(s, p, Leaf(v)).frame]
    ensures Look(s, p, v) == Some(View(s.page[Entry(s, p, Leaf(v)).frame], Entry(s, p, Leaf(v)).r,
      Entry(s, p, Leaf(v)).w || Entry(s, p, Leaf(v)).cow, Entry(s, p, Leaf(v)).x, Entry(s, p, Leaf(v)).u))
  {
  }

  lemma CopyMade(s: State, first: nat, p: nat, v: nat)
    requires Inv(s, first) && s.free != [] && Has(s, p, Leaf(v)) && v < TRAPFRAME && Entry(s, p, Leaf(v)).cow
    ensures Edited(s, Copied(s, first, p, v), first, p, v) && Look(Copied(s, first, p, v), p, v) == Look(s, p, v)
  {
    hide Tables, FreeMatch, CountsMatch, FullPages, Look;
    var e, f := Entry(s, p, Leaf(v)), Head(s, first);
    LeafInPool(s, first, p, v);
    var t := Blank(s, first, s.page[e.frame]);
    BlankKeeps(s, first, s.page[e.frame]);
    LeafInPool(t, first, p, v);
    LeafDropped(t, first, p, v);
    var d := Dropped(t, p, Leaf(v));
    assert Temp in t.refs[f];
    TempAlone(d, first, f);
    var e' := e.(frame := f, w := true, cow := false);
    PlaceKeeps(d, first, p, Leaf(v), e');
    var s' := Copied(s, first, p, v);
    LeafInPool(s', first, p, v);
    forall h | InPool(s, first, h)
      ensures (Temp in s'.refs[h] <==> Temp in s.refs[h]) && (Temp in s.refs[h] ==> s'.page[h] == s.page[h])
    {
      assert h != f ==> t.refs[h] == s.refs[h] && t.page[h] == s.page[h];
    }
  }

  ghost function Poked(s: State, p: nat, v: nat, bytes: seq<int>): State
    requires Has(s, p, Leaf(v)) && Entry(s, p, Leaf(v)).frame < |s.page|
  {
    s.(page := s.page[Entry(s, p, Leaf(v)).frame := bytes])
  }

  // A store through a writable entry shows in one address space only.
  lemma PokeKeeps(s: State, first: nat, p: nat, v: nat, bytes: seq<int>)
    requires Inv(s, first) && Has(s, p, Leaf(v)) && v < TRAPFRAME && Entry(s, p, Leaf(v)).w && |bytes| == PGSIZE
    ensures InPool(s, first, Entry(s, p, Leaf(v)).frame) && Edited(s, Poked(s, p, v, bytes), first, p, v)
    ensures Look(s, p, v).Some? && Look(Poked(s, p, v, bytes), p, v) == Some(Look(s, p, v).value.(bytes := bytes))
  {
    var f := Entry(s, p, Leaf(v)).frame;
    LeafInPool(s, first, p, v);
    FillKeeps(s, first, f, bytes);
    var s' := Poked(s, p, v, bytes);
    assert s.refs[f] == {At(p, Leaf(v))};
    forall o, u: nat | !(o == p && u == v) ensures Look(s', o, u) == Look(s, o, u) {
      if Has(s, o, Leaf(u)) && u < TRAPFRAME { LeafInPool(s, first, o, u); }
    }
  }

  // Tables that point at the same frames.
  ghost predicate SameFrames(s: State, s': State) {
    && s'.procs.Keys == s.procs.Keys
    && (forall p, t :: Has(s', p, t) <==> Has(s, p, t))
    && (forall p, t :: Has(s, p, t) ==> Entry(s', p, t).frame == Entry(s, p, t).frame)
  }

  // The same counters and the same free frames.
  ghost predicate Refunded(s: State, s': State, first: nat) {
    && |s'.counter| == |s.counter| && (forall f :: first <= f < |s.counter| ==> s'.counter[f] == s.counter[f])
    && (forall f :: f in s'.free <==> f in s.free)
  }

  /** Between operations the tables alone say which frames are free and how often
      each is counted, so an operation that leaves them pointing where they did
      has given back every frame it took. */
  lemma NothingLeaks(s: State, s': State, first: nat)
    requires Inv(s, first) && Inv(s', first) && Quiet(s, first) && Quiet(s', first)
    requires SameFrames(s, s') && |s.refs| == |s'.refs|
    ensures Refunded(s, s', first)
  {
    hide Inv, SameFrames, Refunded;
    NothingLeaksHeld(s, s', first);
  }

  // So they do if the same frames are in the hands of kernel locals.
  ghost predicate SameTemps(s: State, s': State, first: nat) {
    |s.refs| == |s'.refs| && forall f {:trigger s.refs[f]} {:trigger s'.refs[f]} :: InPool(s, first, f) ==>
      (Temp in s.refs[f] <==> Temp in s'.refs[f])
  }

  lemma NothingLeaksHeld(s: State, s': State, first: nat)
    requires Inv(s, first) && Inv(s', first) && SameTemps(s, s', first) && SameFrames(s, s')
    ensures Refunded(s, s', first)
  {
    forall f | InPool(s, first, f) ensures s'.refs[f] == s.refs[f] {
      SameRefs(s, s', first, f);
      SameRefs(s', s, first, f);
    }
  }

  lemma SameRefs(s: State, s': State, first: nat, f: nat)
    requires Inv(s, first) && Inv(s', first) && SameTemps(s, s', first) && SameFrames(s, s') && InPool(s, first, f)
    ensures s.refs[f] <= s'.refs[f]
  {
    forall r | r in s.refs[f] ensures r in s'.refs[f] {
      if r.At? {
        assert Has(s, r.p, r.slot);
        assert Has(s', r.p, r.slot);
      }
    }
  }

  // An interior page that p's table gained took a frame that was free.
  lemma GainedPage(s: State, s': State, first: nat, p: nat, t: Slot)
    requires Inv(s, first) && Inv(s', first) && SameTemps(s, s', first) && OnlyInterior(s, s', p)
    requires Has(s', p, t) && !Has(s, p, t)
    ensures Entry(s', p, t).frame in s.free && Entry(s', p, t).frame !in s'.free
  {
    var f := Entry(s', p, t).frame;
    assert At(p, t) in s'.refs[f] && s'.refs[f] == {At(p, t)};
    forall r | r in s.refs[f] ensures r in s'.refs[f] {
      if r.At? { assert Has(s, r.p, r.slot) && Has(s', r.p, r.slot); }
    }
    assert At(p, t) !in s.refs[f];
  }

  /** An attempt that only extended p's table has given back every frame exactly if it left no
      interior page behind. */
  lemma RefundedExactly(s: State, s': State, first: nat, p: nat)
    requires Inv(s, first) && Inv(s', first) && SameTemps(s, s', first) && OnlyInterior(s, s', p) && p in s.procs
    ensures Refunded(s, s', first) <==> forall t :: t in s'.procs[p].slots && !t.Leaf? ==> t in s.procs[p].slots
  {
    hide Inv;
    assert forall t :: (Has(s, p, t) <==> t in s.procs[p].slots) && (Has(s', p, t) <==> t in s'.procs[p].slots);
    if t :| Has(s', p, t) && !Has(s, p, t) {
      GainedPage(s, s', first, p, t);
      assert t in s'.procs[p].slots && !t.Leaf?;
    } else {
      assert forall o, t :: Has(s', o, t) <==> Has(s, o, t);
      NothingLeaksHeld(s, s', first);
    }
  }

  /** Once p is freed, what an attempt left in its table is free again: the frames are those that
      freeing p at once would have left. */
  lemma ReapedAlike(s: State, s': State, u: State, u': State, first: nat, p: nat)
    requires Inv(s, first) && OnlyInterior(s, s', p)
    requires Inv(u, first) && Quiet(u, first) && u.procs == s.procs - {p} && |u.refs| == |s.refs|
    requires Inv(u', first) && Quiet(u', first) && u'.procs == s'.procs - {p} && |u'.refs| == |s'.refs|
    ensures SameFrames(u, u') && Refunded(u, u', first)
  {
    hide Inv;
    assert u'.procs.Keys == u.procs.Keys;
    forall o, t ensures Has(u', o, t) <==> Has(u, o, t) {
      assert Has(u, o, t) <==> o != p && Has(s, o, t);
      assert Has(u', o, t) <==> o != p && Has(s', o, t);
    }
    forall o, t | Has(u, o, t) ensures Entry(u', o, t).frame == Entry(u, o, t).frame { assert Has(s, o, t); }
    NothingLeaks(u, u', first);
  }

  /** Between operations a frame outside the free list is in some table. */
  lemma NoFrameLost(s: State, first: nat, f: nat)
    requires Inv(s, first) && Quiet(s, first) && InPool(s, first, f) && f !in s.free
    ensures exists p, t :: Has(s, p, t) && Counted(t) && Entry(s, p, t).frame == f
  {
    var r :| r in s.refs[f];
    assert Has(s, r.p, r.slot);
  }

  ghost function UserFrames(s: State, p: nat, n: nat): set<int>
    requires forall v: nat :: v < n ==> Has(s, p, Leaf(v))
  {
    if n == 0 then {} else UserFrames(s, p, n - 1) + {Entry(s, p, Leaf(n - 1)).frame}
  }

  // Two user pages of a process have two frames.
  lemma FramesApart(s: State, first: nat, p: nat, v: nat, u: nat)
    requires Inv(s, first) && Has(s, p, Leaf(v)) && Has(s, p, Leaf(u)) && v < u < TRAPFRAME
    ensures Entry(s, p, Leaf(v)).frame != Entry(s, p, Leaf(u)).frame
  {
    LeafInPool(s, first, p, v);
    LeafInPool(s, first, p, u);
  }

  lemma {:induction false} UserFramesDistinct(s: State, first: nat, p: nat, n: nat)
    requires Inv(s, first) && n <= TRAPFRAME && forall v: nat :: v < n ==> Has(s, p, Leaf(v))
    ensures |UserFrames(s, p, n)| == n
    ensures forall f :: f in UserFrames(s, p, n) ==>
      InPool(s, first, f) && exists v: nat :: v < n && Entry(s, p, Leaf(v)).frame == f
  {
    hide Inv;
    if n > 0 {
      UserFramesDistinct(s, first, p, n - 1);
      LeafInPool(s, first, p, n - 1);
      var f := Entry(s, p, Leaf(n - 1)).frame;
      if f in UserFrames(s, p, n - 1) {
        var v: nat :| v < n - 1 && Entry(s, p, Leaf(v)).frame == f;
        FramesApart(s, first, p, v, n - 1);
      }
    }
  }

  /** A process has no more pages than there are frames, so its memory never
      grows into the trapframe. */
  lemma PagesBounded(s: State, first: nat, p: nat, n: nat)
    requires Inv(s, first) && n <= TRAPFRAME && |s.refs| <= NFRAME && forall v: nat :: v < n ==> Has(s, p, Leaf(v))
    ensures n <= NFRAME < TRAPFRAME
  {
    hide Inv;
    UserFramesDistinct(s, first, p, n);
    var frames, all := UserFrames(s, p, n), Range(0, |s.refs|);
    RangeIs(0, |s.refs|);
    SubsetSize(frames, all) by {
      forall f | f in frames ensures f in all { assert InPool(s, first, f); }
    }
  }

  // Everything but the user pages from lo up is kept, and only interior pages and user pages are new.
  ghost predicate KeptTop(m: Slots, m': Slots, lo: nat) {
    && (forall t :: t in m && !(t.Leaf? && lo <= t.v < TRAPFRAME) ==> t in m' && m'[t] == m[t])
    && (forall t :: t in m' && t !in m ==> t.L1? || t.L0? || (t.Leaf? && lo <= t.v < TRAPFRAME))
  }

  // p's user memory from page lo up was being remapped.
  ghost predicate Reshaped(s: State, s': State, first: nat, p: nat, lo: nat) {
    && Inv(s', first) && Others(s, s', p) && SameHeld(s, s', first)
    && Shaped(s'.procs[p].slots) && KeptTop(s.procs[p].slots, s'.procs[p].slots, lo)
    && (forall v: nat :: v < lo ==> Look(s', p, v) == Look(s, p, v))
  }

  lemma ReshapedNothing(s: State, first: nat, p: nat, lo: nat)
    requires Inv(s, first) && p in s.procs && Shaped(s.procs[p].slots)
    ensures Reshaped(s, s, first, p, lo)
  {
  }

  lemma ReshapedTwice(s: State, t: State, u: State, first: nat, p: nat, lo: nat)
    requires Reshaped(s, t, first, p, lo) && Reshaped(t, u, first, p, lo)
    ensures Reshaped(s, u, first, p, lo)
  {
    hide Inv, Look, Shaped;
  }

  lemma GrewReshaped(s: State, g: State, first: nat, p: nat, lo: nat, n: nat)
    requires Grew(s, g, first, p) && Mapped(s.procs[p].slots, n, 0, 0)
    ensures Reshaped(s, g, first, p, lo) && Mapped(g.procs[p].slots, n, 0, 0)
  {
    hide Inv, Look, Shaped;
  }

  lemma ShapedWithout(m: Slots, v: nat)
    requires Shaped(m)
    ensures Shaped(m - {Leaf(v)})
  {
  }

  lemma MappedWithout(m: Slots, n: nat, a: nat, i: nat)
    requires Mapped(m, n, a, i) && a <= i < n
    ensures Mapped(m - {Leaf(i)}, n, a, i + 1)
  {
  }

  lemma MappedAll(m: Slots, n: nat, a: nat)
    requires a <= n && Mapped(m, n, a, n)
    ensures Mapped(m, a, 0, 0)
  {
  }

  lemma Unmapped(s: State, t: State, first: nat, p: nat, n: nat, a: nat, i: nat)
    requires Reshaped(s, t, first, p, a) && Mapped(t.procs[p].slots, n, a, i) && a <= i < n <= TRAPFRAME
    requires Has(t, p, Leaf(i)) && Entry(t, p, Leaf(i)).frame < |t.refs| == |t.counter| == |t.page|
    requires Edited(t, Dropped(t, p, Leaf(i)), first, p, i)
    ensures Reshaped(s, Dropped(t, p, Leaf(i)), first, p, a)
    ensures Mapped(Dropped(t, p, Leaf(i)).procs[p].slots, n, a, i + 1)
  {
    hide Inv, Look, Shaped, Mapped;
    ShapedWithout(t.procs[p].slots, i);
    MappedWithout(t.procs[p].slots, n, a, i);
  }

  // One turn of uvmalloc's loop.
  lemma Extended(s: State, t: State, s': State, first: nat, p: nat, i: nat, lo: nat)
    requires Reshaped(s, t, first, p, lo) && lo <= i < TRAPFRAME
    requires Edited(t, s', first, p, i) && Shaped(s'.procs[p].slots)
    ensures Reshaped(s, s', first, p, lo)
  {
    hide Inv, Look, Shaped;
  }

  ghost function Sized(s: State, p: nat, sz: nat): State
    requires p in s.procs
  {
    s.(procs := s.procs[p := s.procs[p].(sz := sz)])
  }

  lemma SizedKeeps(s: State, first: nat, p: nat, sz: nat)
    requires Inv(s, first) && p in s.procs
    ensures Inv(Sized(s, p, sz), first)
    ensures forall o, v: nat :: Look(Sized(s, p, sz), o, v) == Look(s, o, v)
  {
    var s' := Sized(s, p, sz);
    assert forall o, t :: Has(s', o, t) <==> Has(s, o, t);
    assert forall o, t :: Has(s, o, t) ==> Entry(s', o, t) == Entry(s, o, t);
  }

  // The tables as before, but for interior pages that p gained.
  ghost predicate OnlyInterior(s: State, s': State, p: nat) {
    && s'.procs.Keys == s.procs.Keys && |s'.refs| == |s.refs|
    && (forall o, t :: Has(s, o, t) ==> Has(s', o, t) && Entry(s', o, t) == Entry(s, o, t))
    && (forall o, t :: Has(s', o, t) && !Has(s, o, t) ==> o == p && (t.L1? || t.L0?))
  }

  lemma ReshapedBack(s: State, s': State, first: nat, p: nat, n: nat)
    requires Reshaped(s, s', first, p, n)
    requires Mapped(s.procs[p].slots, n, 0, 0) && Mapped(s'.procs[p].slots, n, 0, 0)
    ensures OnlyInterior(s, s', p)
  {
    hide Inv, Look, Shaped;
  }

  /** After an attempt that only extended p's table, a frame that is no longer free
      is one of the pages of that table, and all other counters are as before. */
  lemma OnlyInteriorLeaks(s: State, s': State, first: nat, p: nat, f: nat)
    requires Inv(s, first) && Inv(s', first) && Quiet(s, first) && Quiet(s', first) && OnlyInterior(s, s', p)
    requires InPool(s, first, f)
    ensures f !in s.free ==> f !in s'.free && s'.counter[f] == s.counter[f]
    ensures f in s.free && f !in s'.free ==>
      exists t: Slot :: (t.L1? || t.L0?) && Has(s', p, t) && !Has(s, p, t) && Entry(s', p, t).frame == f
  {
    if f !in s.free {
      var r0 :| r0 in s.refs[f];
      assert Has(s, r0.p, r0.slot);
      assert r0 in s'.refs[f];
      forall r | r in s'.refs[f] ensures r in s.refs[f] {
        assert Has(s', r.p, r.slot) && Has(s', r0.p, r0.slot);
        if !Has(s, r.p, r.slot) { assert r.slot == r0.slot; }
      }
      forall r | r in s.refs[f] ensures r in s'.refs[f] { assert Has(s, r.p, r.slot); }
      assert s'.refs[f] == s.refs[f];
    } else if f !in s'.free {
      var r :| r in s'.refs[f];
      assert Has(s', r.p, r.slot);
    }
  }

  // A step on p's table that no other process sees.
  ghost predicate Touched(s: State, s': State, first: nat, p: nat) {
    Inv(s', first) && Others(s, s', p) && SameHeld(s, s', first)
  }

  lemma TouchedTwice(s: State, t: State, u: State, first: nat, p: nat)
    requires Touched(s, t, first, p) && Touched(t, u, first, p)
    ensures Touched(s, u, first, p)
  {
    hide Inv, Look;
  }

  // A page of the table, or the trapframe, is cleared and freed.
  lemma SlotDropped(s: State, first: nat, p: nat, slot: Slot)
    requires Inv(s, first) && Has(s, p, slot) && !slot.Leaf?
    ensures InPool(s, first, Entry(s, p, slot).frame)
    ensures Touched(s, Dropped(s, p, slot), first, p)
  {
    hide Inv, Look, SameHeld;
    DropKeeps(s, first, p, slot);
    DropLooks(s, first, p, slot);
    DropHeld(s, first, p, slot);
  }

  // The trampoline and trapframe entries come and go without a count.
  lemma TopMapped(s: State, first: nat, p: nat, v: nat, e: Pte)
    requires Inv(s, first) && p in s.procs && !Counted(Leaf(v)) && !Has(s, p, Leaf(v))
    ensures Touched(s, WithSlot(s, p, Leaf(v), e), first, p)
  {
    var s' := WithSlot(s, p, Leaf(v), e);
    assert forall o, t :: Has(s', o, t) <==> Has(s, o, t) || (o == p && t == Leaf(v));
    assert forall o, t :: Has(s, o, t) ==> Entry(s', o, t) == Entry(s, o, t);
  }

  lemma TopCleared(s: State, first: nat, p: nat, v: nat)
    requires Inv(s, first) && p in s.procs && !Counted(Leaf(v))
    ensures Touched(s, WithoutSlot(s, p, Leaf(v)), first, p)
  {
    var s' := WithoutSlot(s, p, Leaf(v));
    assert forall o, t :: Has(s', o, t) <==> Has(s, o, t) && !(o == p && t == Leaf(v));
    assert forall o, t :: Has(s', o, t) ==> Entry(s', o, t) == Entry(s, o, t);
  }

  // The entry in the process table, without any memory.
  ghost function Entered(s: State, q: nat): State { s.(procs := s.procs[q := Proc(map[], 0)]) }

  lemma EnterKeeps(s: State, first: nat, q: nat)
    requires Inv(s, first) && q !in s.procs && q < NPROC
    ensures Inv(Entered(s, q), first)
    ensures forall o, v: nat :: Look(Entered(s, q), o, v) == Look(s, o, v)
  {
    var s' := Entered(s, q);
    assert forall o, t :: Has(s', o, t) <==> Has(s, o, t);
    assert forall o, t :: Has(s, o, t) ==> Entry(s', o, t) == Entry(s, o, t);
  }

  ghost function Left(s: State, q: nat): State { s.(procs := s.procs - {q}) }

  lemma LeaveKeeps(s: State, first: nat, q: nat)
    requires Inv(s, first) && q in s.procs && s.procs[q].slots == map[]
    ensures Inv(Left(s, q), first)
    ensures forall o, v: nat :: Look(Left(s, q), o, v) == Look(s, o, v)
  {
    var s' := Left(s, q);
    assert forall o, t :: Has(s', o, t) <==> Has(s, o, t);
    assert forall o, t :: Has(s, o, t) ==> Entry(s', o, t) == Entry(s, o, t);
  }

  // The pages of a table at or below one of its pages.
  predicate Under(slot: Slot, t: Slot) {
    match slot
    case Root => t.Root? || t.L1? || t.L0?
    case L1(i) => t == L1(i) || (t.L0? && t.j / NPTE == i)
    case _ => t == slot
  }

  // Those below its first k entries.
  predicate Below(slot: Slot, k: nat, t: Slot) {
    match slot
    case Root => (t.L1? && t.i < k) || (t.L0? && t.j / NPTE < k)
    case L1(i) => t.L0? && t.j / NPTE == i && t.j % NPTE < k
    case _ => false
  }

  // What entry k of a page of the table points at.
  function Child(slot: Slot, k: nat): Slot
    requires slot.Root? || slot.L1? || slot.L0?
  {
    match slot
    case Root => L1(k)
    case L1(i) => L0(i * NPTE + k)
    case L0(j) => Leaf(j * NPTE + k)
  }

  ghost predicate NoLeaf(m: Slots) { forall t :: t in m ==> !t.Leaf? }

  ghost predicate PrunedUnder<T(!new)>(m: map<Slot, T>, m': map<Slot, T>, slot: Slot) {
    forall t :: (t in m' <==> t in m && !Under(slot, t)) && (t in m' ==> m'[t] == m[t])
  }

  ghost predicate PrunedBelow<T(!new)>(m: map<Slot, T>, m': map<Slot, T>, slot: Slot, k: nat) {
    forall t :: (t in m' <==> t in m && !Below(slot, k, t)) && (t in m' ==> m'[t] == m[t])
  }

  lemma BelowShaped(m: Slots, a: Slots, slot: Slot, k: nat)
    requires Shaped(m) && NoLeaf(m) && PrunedBelow(m, a, slot, k)
    ensures Shaped(a) && NoLeaf(a)
  {
  }

  lemma ChildPruned(m: Slots, a: Slots, b: Slots, slot: Slot, k: nat)
    requires Shaped(m) && NoLeaf(m) && PrunedBelow(m, a, slot, k) && (slot.Root? || slot.L1? || slot.L0?) && k < NPTE
    requires if Child(slot, k) in a then PrunedUnder(a, b, Child(slot, k)) else b == a
    ensures PrunedBelow(m, b, slot, k + 1)
  {
    forall t ensures (t in b <==> t in m && !Below(slot, k + 1, t)) && (t in b ==> b[t] == m[t]) {
      if t in m && t.L0? && slot.Root? && t.j / NPTE == k { assert L1(k) in m; }
    }
  }

  lemma AllPruned(m: Slots, a: Slots, slot: Slot)
    requires Shaped(m) && NoLeaf(m) && PrunedBelow(m, a, slot, NPTE) && (slot.Root? || slot.L1? || slot.L0?)
    ensures PrunedUnder(m, a - {slot}, slot)
  {
    forall t | t in m && t.L0? ensures t.j / NPTE < NPTE { }
  }

  // A new process q has appeared beside the others.
  ghost predicate Beside(s: State, s': State, first: nat, q: nat) {
    && Inv(s', first) && SameHeld(s, s', first) && q !in s.procs && s'.procs.Keys == s.procs.Keys + {q}
    && (forall o :: o in s.procs ==> s'.procs[o] == s.procs[o])
    && (forall o, v: nat :: o != q ==> Look(s', o, v) == Look(s, o, v))
  }

  lemma BesideTouched(s: State, t: State, u: State, first: nat, q: nat)
    requires Beside(s, t, first, q) && Touched(t, u, first, q)
    ensures Beside(s, u, first, q)
  {
    hide Inv, Look;
  }

  // p and all it held are gone.
  ghost predicate Gone(s: State, s': State, first: nat, p: nat) {
    && Inv(s', first) && SameHeld(s, s', first) && s'.procs == s.procs - {p}
    && forall o, v: nat :: o != p ==> Look(s', o, v) == Look(s, o, v)
  }

  // The tables are as they were.
  ghost predicate Restored(s: State, s': State, first: nat) {
    Inv(s', first) && SameHeld(s, s', first) && s'.procs == s.procs && forall o, v: nat ::
      Look(s', o, v) == Look(s, o, v)
  }

  lemma BesideGone(s: State, t: State, u: State, first: nat, q: nat)
    requires Beside(s, t, first, q) && Gone(t, u, first, q)
    ensures Restored(s, u, first)
  {
    hide Inv;
    assert u.procs.Keys == s.procs.Keys;
    assert u.procs == s.procs;
    forall o, v: nat ensures Look(u, o, v) ==
      Look(s, o, v) { if o == q { assert !Has(u, q, Leaf(v)) && !Has(s, q, Leaf(v)); } }
  }

  lemma TfAdded(s: State, first: nat, p: nat)
    requires Inv(s, first) && s.free != [] && p in s.procs && Tf !in s.procs[p].slots
    ensures Head(s, first) < |Taken(s, first).refs|
      && Touched(s, Placed(Taken(s, first), p, Tf, Node(Head(s, first))), first, p)
  {
    var t, f := Taken(s, first), Head(s, first);
    TakeKeeps(s, first);
    PlaceKeeps(t, first, p, Tf, Node(f));
    hide Inv, Look;
    Sizes(s, first);
  }
}
