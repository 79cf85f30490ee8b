/** The three-level page table as it lies in memory: pages of 512 words, reached
    from the root by nine bits of the address at a time (kernel/vm.c, section 4.4
    of the RISC-V Privileged Architecture). */
module Sv39 {
  import opened Options
  import opened Frames
  import opened Cow

  // A word holds a frame number above ten bits of flags.
  const V: nat := 1
  const FLAGS: nat := 1024

  function Word(f: nat, flags: nat): (w: int)
    ensures w >= 0
  { f * FLAGS + flags }

  predicate IsValid(w: int) { w % 2 == 1 }

  // Some of the bits R, W and X are set.
  predicate IsLeaf(w: int) { w / 2 % 8 != 0 }

  function FrameOf(w: int): int { w / FLAGS }

  lemma WordSplit(f: nat, flags: nat)
    requires flags < FLAGS
    ensures FrameOf(Word(f, flags)) == f && Word(f, flags) % FLAGS == flags
  {
  }

  lemma WordValid(f: nat, flags: nat)
    ensures IsValid(Word(f, flags)) == IsValid(flags)
  {
    assert Word(f, flags) == 2 * (f * 512) + flags;
  }

  lemma WordLeaf(f: nat, flags: nat)
    ensures IsLeaf(Word(f, flags)) == IsLeaf(flags)
  {
    assert Word(f, flags) / 2 == 8 * (f * 64) + flags / 2;
  }

  lemma PointerFields(f: nat)
    ensures IsValid(Word(f, V)) && !IsLeaf(Word(f, V)) && FrameOf(Word(f, V)) == f && !IsValid(0)
  {
    WordSplit(f, V);
    WordValid(f, V);
    WordLeaf(f, V);
  }

  // The nine index bits of page number v at a level.
  function Px(level: nat, v: nat): nat
    requires level <= 2
  {
    match level case 0 => v % NPTE case 1 => v / NPTE % NPTE case _ => v / NPTE / NPTE % NPTE
  }

  // The page of the table in which walk looks for page number v at a level.
  function NodeFor(level: nat, v: nat): Slot
    requires level <= 2
  {
    match level case 0 => L0(v / NPTE) case 1 => L1(v / NPTE / NPTE) case _ => Root
  }

  lemma NodeBelow(level: nat, v: nat)
    requires 1 <= level <= 2 && v < MAXVPN
    ensures Px(level, v) < NPTE && (NodeFor(level, v).Root? || NodeFor(level, v).L1?)
    ensures Child(NodeFor(level, v), Px(level, v)) == NodeFor(level - 1, v)
  {
  }

  lemma LastPx(v: nat)
    ensures Px(0, v) == v % NPTE
  {
  }

  type Pages = map<nat, seq<int>>
  // Which frame is which page of the table.
  type Owner = map<Slot, nat>

  ghost predicate WordOk(own: Owner, t: Slot, k: nat, w: int) {
    match t
    case L0(j) => w == 0 || (IsValid(w) && IsLeaf(w))
    case L1(i) => w == if L0(i * NPTE + k) in own then Word(own[L0(i * NPTE + k)], V) else 0
    case Root => w == if L1(k) in own then Word(own[L1(k)], V) else 0
    case _ => false
  }

  ghost predicate NodeOk(pages: Pages, own: Owner, t: Slot)
    requires t in own
  {
    && own[t] in pages && |pages[own[t]]| == NPTE
    && forall k :: 0 <= k < NPTE ==> WordOk(own, t, k, pages[own[t]][k])
  }

  // Interior pages sit below their parents.
  ghost predicate Tree(own: Owner) {
    forall t :: t in own ==> match t
      case Root => true
      case L1(i) => i < NPTE
      case L0(j) => j < NPTE * NPTE && L1(j / NPTE) in own
      case _ => false
  }

  ghost predicate Rooted(own: Owner) { Root in own && Tree(own) }

  ghost predicate Injective(own: Owner) { forall s, t :: s in own && t in own && own[s] == own[t] ==> s == t }

  // The free frames are distinct and none is a page of the table.
  ghost predicate Apart(own: Owner, free: seq<nat>) {
    && (forall i, j :: 0 <= i < j < |free| ==> free[i] != free[j])
    && (forall t :: t in own ==> own[t] !in free)
  }

  ghost predicate Ok(pages: Pages, own: Owner, free: seq<nat>) {
    Rooted(own) && Injective(own) && Apart(own, free) && forall t :: t in own ==> NodeOk(pages, own, t)
  }

  /** What the table maps page number v to: a flat map. */
  ghost function Flat(pages: Pages, own: Owner, v: nat): int {
    if L0(v / NPTE) in own && own[L0(v / NPTE)] in pages && |pages[own[L0(v / NPTE)]]| == NPTE
    then pages[own[L0(v / NPTE)]][v % NPTE] else 0
  }

  function Zeros(): seq<int> { seq(NPTE, _ => 0) }

  // walk puts a zeroed page f behind entry k of page t.
  lemma NodeLinked(pages: Pages, own: Owner, free: seq<nat>, t: Slot, k: nat)
    requires Ok(pages, own, free) && t in own && (t.Root? || t.L1?) && k < NPTE && Child(t, k) !in own && free != []
    ensures own[t] in pages && |pages[own[t]]| == NPTE && free[0] != own[t]
    ensures var f, c := free[0], Child(t, k);
      var pages', own' := pages[f := Zeros()][own[t] := pages[own[t]][k := Word(f, V)]], own[c := f];
      Ok(pages', own', free[1..])
  {
    hide Word, IsValid, IsLeaf;
    var f, c := free[0], Child(t, k);
    assert f in free && NodeOk(pages, own, t);
    var pages', own' := pages[f := Zeros()][own[t] := pages[own[t]][k := Word(f, V)]], own[c := f];
    forall s | s in own' ensures NodeOk(pages', own', s) {
      if s != c { assert NodeOk(pages, own, s); }
    }
    assert Apart(own', free[1..]) by { TailOf(free); }
  }

  lemma NodeLinkedFlat(pages: Pages, own: Owner, free: seq<nat>, t: Slot, k: nat, v: nat)
    requires Ok(pages, own, free) && t in own && (t.Root? || t.L1?) && k < NPTE && Child(t, k) !in own && free != []
    requires own[t] in pages && |pages[own[t]]| == NPTE
    ensures var f, c := free[0], Child(t, k);
      var pages', own' := pages[f := Zeros()][own[t] := pages[own[t]][k := Word(f, V)]], own[c := f];
      Flat(pages', own', v) == Flat(pages, own, v)
  {
    var c, s := Child(t, k), L0(v / NPTE);
    assert free[0] in free;
    if s in own { assert NodeOk(pages, own, s) && s != t && s != c; }
  }

  // An entry of the last level is written.
  lemma LeafSet(pages: Pages, own: Owner, free: seq<nat>, j: nat, k: nat, w: int)
    requires Ok(pages, own, free) && L0(j) in own && k < NPTE && (w == 0 || (IsValid(w) && IsLeaf(w)))
    ensures own[L0(j)] in pages && |pages[own[L0(j)]]| == NPTE
    ensures var pages' := pages[own[L0(j)] := pages[own[L0(j)]][k := w]];
      Ok(pages', own, free) && forall v: nat :: Flat(pages', own, v) == if v == j * NPTE + k then w
        else Flat(pages, own, v)
  {
    assert NodeOk(pages, own, L0(j));
    var pages' := pages[own[L0(j)] := pages[own[L0(j)]][k := w]];
    forall s | s in own ensures NodeOk(pages', own, s) { assert NodeOk(pages, own, s); }
    forall v: nat ensures Flat(pages', own, v) == if v == j * NPTE + k then w else Flat(pages, own, v) {
      if L0(v / NPTE) in own { assert NodeOk(pages, own, L0(v / NPTE)); }
    }
  }

  // The table maps every page as before.
  ghost predicate SameFlat(pages: Pages, own: Owner, pages': Pages, own': Owner) {
    forall u: nat :: Flat(pages', own', u) == Flat(pages, own, u)
  }

  // The n pages from v on are mapped.
  ghost predicate AllMapped(pages: Pages, own: Owner, v: nat, n: nat) {
    forall u: nat :: v <= u < v + n ==> u < MAXVPN && Flat(pages, own, u) != 0
  }

  // They are not, though they could be.
  ghost predicate AllVacant(pages: Pages, own: Owner, v: nat, n: nat) {
    forall u: nat :: v <= u < v + n ==> u < MAXVPN && Flat(pages, own, u) == 0
  }

  // How mappages and uvmunmap end.
  datatype Mapping = Done | NoMemory | Panic(msg: string)

  class PageTable {
    var pages: Pages
    var free: seq<nat>
    const root: nat
    ghost var own: Owner

    ghost predicate Valid()
      reads this
    {
      Ok(pages, own, free) && own[Root] == root
    }

    ghost function At(v: nat): int
      reads this
    {
      Flat(pages, own, v)
    }

    // uvmcreate: one zeroed page, from a free list that has one.
    constructor (free: seq<nat>, pages: Pages)
      requires free != [] && forall i, j :: 0 <= i < j < |free| ==> free[i] != free[j]
      ensures Valid() && this.free == free[1..] && own == map[Root := free[0]] && forall v: nat :: At(v) == 0
    {
      this.root, this.free := free[0], free[1..];
      this.pages := pages[free[0] := Zeros()];
      this.own := map[Root := free[0]];
      new;
      PointerFields(0);
      assert NodeOk(this.pages, own, Root);
    }

    // The frame and index of the last-level entry of page number v.
    method Walk(v: nat, alloc: bool) returns (r: Option<(nat, nat)>)
      requires Valid() && v < MAXVPN
      modifies this`pages, this`free, this`own
      ensures Valid() && SameFlat(old(pages), old(own), pages, own)
      ensures HandedBack(own, old(own), free, old(free))
      ensures !alloc ==> pages == old(pages) && free == old(free) && own == old(own)
      ensures r.Some? ==> L0(v / NPTE) in own && r.value == (own[L0(v / NPTE)], v % NPTE)
      ensures r.None? ==> if alloc then free == [] else L0(v / NPTE) !in own
    {
      hide Ok, HandedBack, Flat, Word, FrameOf, IsValid, IsLeaf, Px;
      var pt := root;
      ghost var t := Root;
      var level := 2;
      Top(pages, own, free);
      HandedNone(own, free);
      while level > 0
        invariant 0 <= level <= 2 && Valid() && t in own && own[t] == pt
        invariant t == NodeFor(level, v)
        invariant SameFlat(old(pages), old(own), pages, own)
        invariant HandedBack(own, old(own), free, old(free))
        invariant !alloc ==> pages == old(pages) && free == old(free) && own == old(own)
      {
        var k := Px(level, v);
        NodeBelow(level, v);
        EntryOf(pages, own, free, t, k);
        var w := pages[pt][k];
        if IsValid(w) {
          pt := FrameOf(w);
        } else {
          if !alloc || free == [] {
            Missing(pages, own, free, level, v);
            return None;
          }
          ghost var own1, free1 := own, free;
          pt := Link(pt, k, t);
          HandedTwice(own, own1, old(own), free, free1, old(free));
        }
        t := Child(t, k);
        level := level - 1;
      }
      LastPx(v);
      r := Some((pt, Px(0, v)));
    }

    // mappages: the pages of [va, va + size) get consecutive frames from pa's on, until done of them have.
    method Mappages(va: nat, size: nat, pa: nat, perm: nat) returns (r: Mapping, ghost done: nat)
      requires Valid() && va + size <= 0x1_0000_0000_0000_0000 && perm < FLAGS && IsLeaf(perm)
      modifies this`pages, this`free, this`own
      ensures Valid() && va / PGSIZE + done <= LastPage(va, size) + 1
      ensures RunMapped(old(pages), old(own), pages, own, va / PGSIZE, done, pa / PGSIZE, WithV(perm))
      ensures AllVacant(old(pages), old(own), va / PGSIZE, done)
      ensures HandedBack(own, old(own), free, old(free))
      ensures r.Done? ==> size > 0 && va / PGSIZE + done == LastPage(va, size) + 1
      ensures r.Done? ==> (va / PGSIZE + done - 1) * PGSIZE < va + size <= (va / PGSIZE + done) * PGSIZE
      ensures r.NoMemory? ==> free == [] && va / PGSIZE + done <= LastPage(va, size)
      ensures r.Panic? && size > 0 ==> va / PGSIZE + done <= LastPage(va, size)
      ensures r.Panic? && size > 0 ==> va / PGSIZE + done >= MAXVPN || old(At(va / PGSIZE + done)) != 0
    {
      hide Ok, HandedBack, IsLeaf, Flat, WithV, RunMapped, AllVacant;
      if size == 0 {
        HandedNone(own, free);
        NoneMapped(pages, own, va / PGSIZE, pa / PGSIZE, WithV(perm));
        return Panic("mappages: size"), 0;
      }
      LastHolds(va, size);
      r, done := MapRun(va / PGSIZE, LastPage(va, size), pa / PGSIZE, perm);
    }

    // mappages' loop: pages v to last.
    method MapRun(v: nat, last: nat, f0: nat, perm: nat) returns (r: Mapping, ghost done: nat)
      requires Valid() && v <= last && perm < FLAGS && IsLeaf(perm)
      modifies this`pages, this`free, this`own
      ensures Valid() && HandedBack(own, old(own), free, old(free))
      ensures RunMapped(old(pages), old(own), pages, own, v, done, f0, WithV(perm))
        && AllVacant(old(pages), old(own), v, done)
      ensures if r.Done? then v + done == last + 1 else v + done <= last
      ensures r.NoMemory? ==> free == []
      ensures r.Panic? ==> v + done >= MAXVPN || old(At(v + done)) != 0
    {
      hide Ok, HandedBack, IsLeaf, Flat, WithV, RunMapped, AllVacant;
      done := 0;
      HandedNone(own, free);
      NoneMapped(pages, own, v, f0, WithV(perm));
      var a, f := v, f0;
      while true
        invariant Valid() && v <= a <= last && done == a - v && f == f0 + done
        invariant RunMapped(old(pages), old(own), pages, own, v, done, f0, WithV(perm))
        invariant AllVacant(old(pages), old(own), v, done)
        invariant HandedBack(own, old(own), free, old(free))
        decreases last - a
      {
        ghost var own1, pages1 := own, pages;
        r := MapOne(a, f, perm, old(own), old(free));
        OneMoreMapped(old(pages), old(own), pages1, own1, pages, own, v, done, f0, WithV(perm), r.Done?);
        if !r.Done? { return r, done; }
        done := done + 1;
        if a == last { return Done, done; }
        a, f := a + 1, f + 1;
      }
    }

    // One page of mappages.
    method MapOne(a: nat, f: nat, perm: nat, ghost own0: Owner, ghost free0: seq<nat>) returns (r: Mapping)
      requires Valid() && perm < FLAGS && IsLeaf(perm) && HandedBack(own, own0, free, free0)
      modifies this`pages, this`free, this`own
      ensures Valid() && HandedBack(own, own0, free, free0)
      ensures RunMapped(old(pages), old(own), pages, own, a, if r.Done? then 1 else 0, f, WithV(perm))
      ensures r.Done? ==> a < MAXVPN && old(At(a)) == 0
      ensures r.NoMemory? ==> free == []
      ensures r.Panic? ==> a >= MAXVPN || old(At(a)) != 0
    {
      hide Ok, HandedBack, Word, FrameOf, IsValid, IsLeaf, Flat, WithV;
      if a >= MAXVPN { return Panic("walk"); }
      var e := Walk(a, true);
      HandedTwice(own, old(own), own0, free, old(free), free0);
      if e.None? { return NoMemory; }
      LastEntry(pages, own, free, a);
      if IsValid(pages[e.value.0][e.value.1]) { return Panic("mappages: remap"); }
      MappedWord(f, perm);
      SetEntry(e.value, Word(f, WithV(perm)), a);
      r := Done;
      forall u: nat ensures Flat(pages, own, u) == MappedTo(a, 1, f, WithV(perm), u, Flat(old(pages), old(own), u)) {
        assert At(u) == if u == a then Word(f, WithV(perm)) else old(At(u));
      }
    }

    // uvmunmap: the frames it hands to kfree, and the entries it clears.
    method Uvmunmap(va: nat, npages: nat, doFree: bool) returns (r: Mapping, freed: seq<int>, ghost done: nat)
      requires Valid()
      modifies this`pages, this`free, this`own
      ensures Valid() && done <= npages && free == old(free) && own == old(own)
      ensures r.Done? <==> va % PGSIZE == 0 && AllMapped(old(pages), old(own), va / PGSIZE, npages)
      ensures r.Done? ==> done == npages
      ensures forall u: nat :: At(u) == if va / PGSIZE <= u < va / PGSIZE + done then 0 else old(At(u))
      ensures |freed| == if doFree then done else 0
      ensures forall k :: 0 <= k < |freed| ==> freed[k] == FrameOf(old(At(va / PGSIZE + k)))
    {
      hide Ok, Flat, FrameOf, IsValid, IsLeaf, HandedBack;
      freed, done := [], 0;
      if va % PGSIZE != 0 { return Panic("uvmunmap: not aligned"), freed, done; }
      var v := va / PGSIZE;
      for i := 0 to npages
        invariant Valid() && free == old(free) && own == old(own) && done == i && |freed| == if doFree then i else 0
        invariant forall u: nat :: At(u) == if v <= u < v + i then 0 else old(At(u))
        invariant AllMapped(old(pages), old(own), v, i)
        invariant forall k :: 0 <= k < |freed| ==> freed[k] == FrameOf(old(At(v + k)))
      {
        ghost var was := old(At(v + i));
        if v + i >= MAXVPN { return Panic("walk"), freed, done; }
        var e := Walk(v + i, false);
        if e.None? {
          Unlinked(pages, own, v + i);
          assert At(v + i) == was == 0;
          return Panic("uvmunmap: walk"), freed, done;
        }
        LastEntry(pages, own, free, v + i);
        assert At(v + i) == was;
        var w := pages[e.value.0][e.value.1];
        if !IsValid(w) { return Panic("uvmunmap: not mapped"), freed, done; }
        assert IsLeaf(w);
        if doFree { freed := freed + [FrameOf(w)]; }
        SetEntry(e.value, 0, v + i);
        done := done + 1;
      }
      r := Done;
    }

    method SetEntry(r: (nat, nat), w: int, ghost v: nat)
      requires Valid() && L0(v / NPTE) in own && r == (own[L0(v / NPTE)], v % NPTE)
        && (w == 0 || (IsValid(w) && IsLeaf(w)))
      modifies this`pages
      ensures Valid() && forall u: nat :: At(u) == if u == v then w else old(At(u))
    {
      hide Ok, IsValid, IsLeaf;
      LeafSet(pages, own, free, v / NPTE, v % NPTE, w);
      pages := pages[r.0 := pages[r.0][r.1 := w]];
      assert v / NPTE * NPTE + v % NPTE == v;
    }

    // freewalk: page pt and all pages below it go to the free list, each once.
    method Freewalk(pt: nat, ghost t: Slot)
      requires Freeable(pages, own, free, t) && Empty(pages, own, t) && own[t] == pt
      modifies this`pages, this`free, this`own
      ensures Freed(old(pages), old(own), old(free), pages, own, free, t)
      decreases if t.Root? then 2 else if t.L1? then 1 else 0
    {
      hide Freeable, Empty, Freed, Freeing, IsValid, IsLeaf, FrameOf;
      ghost var own0, pages0, free0 := own, pages, free;
      FreeingStart(pages, own, free, t);
      var k := 0;
      while k < NPTE
        invariant 0 <= k <= NPTE && Freeing(pages0, own0, free0, pages, own, free, t, k)
      {
        FreeingDown(pages0, own0, free0, pages, own, free, t, k);
        var w := pages[pt][k];
        if IsValid(w) {
          assert !IsLeaf(w);
          ghost var own1, pages1, free1 := own, pages, free;
          Freewalk(FrameOf(w), Child(t, k));
          FreeingNext(pages0, own0, free0, pages1, own1, free1, pages, own, free, t, k);
          pages := pages[pt := pages[pt][k := 0]];
        }
        k := k + 1;
      }
      FreeingDone(pages0, own0, free0, pages, own, free, t);
      pages, free, own := pages - {pt}, [pt] + free, own - {t};
    }

    // uvmfree: the user pages are unmapped, then the whole table is freed.
    method Uvmfree(npages: nat) returns (freed: seq<int>)
      requires Valid() && npages <= MAXVPN && forall u: nat :: At(u) != 0 <==> u < npages
      modifies this`pages, this`free, this`own
      ensures own == map[] && HandedBack(old(own), own, old(free), free) && Apart(own, free)
      ensures |freed| == npages && forall k :: 0 <= k < npages ==> freed[k] == FrameOf(old(At(k)))
    {
      hide Ok, Flat, FrameOf, Freeable, Empty, HandedBack, Apart;
      forall u: nat | u < npages ensures Flat(pages, own, u) != 0 { assert At(u) != 0; }
      var r, gone, _ := Uvmunmap(0, npages, true);
      freed := gone;
      forall v: nat ensures Flat(pages, own, v) == 0 { assert At(v) == 0; }
      BlankTable(pages, own, free);
      Freewalk(root, Root);
      assert own == map[] by {
        assert forall t :: t in own ==> t in old(own) && !Under(Root, t);
        OnlyNodes(old(pages), old(own), old(free));
      }
    }

    // A zeroed page is allocated and linked.
    method Link(pt: nat, k: nat, ghost t: Slot) returns (f: nat)
      requires Valid() && t in own && own[t] == pt && (t.Root? || t.L1?) && k < NPTE && Child(t, k) !in own
        && free != []
      modifies this`pages, this`free, this`own
      ensures Valid() && own == old(own)[Child(t, k) := f] && SameFlat(old(pages), old(own), pages, own)
      ensures HandedBack(own, old(own), free, old(free))
    {
      PageTaken(own, free, Child(t, k));
      NodeLinked(pages, own, free, t, k);
      forall v: nat { NodeLinkedFlat(pages, own, free, t, k, v); }
      hide Ok, HandedBack;
      f := free[0];
      free := free[1..];
      pages := pages[f := Zeros()];
      pages := pages[pt := pages[pt][k := Word(f, V)]];
      own := own[Child(t, k) := f];
    }
  }

  // The number of the last page of [va, va + size).
  function LastPage(va: nat, size: nat): int { (va + size - 1) / PGSIZE }

  // The last page is the one that holds the last byte.
  lemma LastHolds(va: nat, size: nat)
    requires size > 0
    ensures va / PGSIZE <= LastPage(va, size)
      && LastPage(va, size) * PGSIZE < va + size <= (LastPage(va, size) + 1) * PGSIZE
  {
  }

  // The entry of page u once pages v to v + n map frames f to f + n.
  function MappedTo(v: nat, n: nat, f: nat, flags: nat, u: nat, was: int): int {
    if v <= u < v + n then Word(f + (u - v), flags) else was
  }

  // Between two states of a table, pages v to v + n were mapped to frames f to f + n, and no other page changed.
  ghost predicate RunMapped(pages: Pages, own: Owner, pages': Pages, own': Owner, v: nat, n: nat, f: nat, flags: nat) {
    forall u: nat :: Flat(pages', own', u) == MappedTo(v, n, f, flags, u, Flat(pages, own, u))
  }

  lemma NoneMapped(pages: Pages, own: Owner, v: nat, f: nat, flags: nat)
    ensures RunMapped(pages, own, pages, own, v, 0, f, flags) && AllVacant(pages, own, v, 0)
  {
  }

  // The page after a run was mapped too, or found in the way.
  lemma OneMoreMapped(p0: Pages, own0: Owner, p1: Pages, own1: Owner, p2: Pages, own2: Owner,
                      v: nat, n: nat, f: nat, flags: nat, one: bool)
    requires RunMapped(p0, own0, p1, own1, v, n, f, flags) && AllVacant(p0, own0, v, n)
    requires RunMapped(p1, own1, p2, own2, v + n, if one then 1 else 0, f + n, flags)
    requires one ==> v + n < MAXVPN && Flat(p1, own1, v + n) == 0
    ensures RunMapped(p0, own0, p2, own2, v, if one then n + 1 else n, f, flags)
    ensures one ==> AllVacant(p0, own0, v, n + 1)
    ensures Flat(p1, own1, v + n) == Flat(p0, own0, v + n)
  {
    hide Flat, Word;
  }

  // perm | PTE_V
  function WithV(perm: nat): nat { if IsValid(perm) then perm else perm + 1 }

  lemma MappedWord(f: nat, perm: nat)
    requires perm < FLAGS && IsLeaf(perm)
    ensures IsValid(Word(f, WithV(perm))) && IsLeaf(Word(f, WithV(perm)))
  {
    WordValid(f, WithV(perm));
    WordLeaf(f, WithV(perm));
    assert WithV(perm) / 2 == perm / 2;
  }

  // The last-level entry of page v.
  lemma LastEntry(pages: Pages, own: Owner, free: seq<nat>, v: nat)
    requires Ok(pages, own, free) && L0(v / NPTE) in own
    ensures var f := own[L0(v / NPTE)];
      && f in pages && |pages[f]| == NPTE && pages[f][v % NPTE] == Flat(pages, own, v)
      && (IsValid(pages[f][v % NPTE]) <==> Flat(pages, own, v) != 0)
      && (IsValid(pages[f][v % NPTE]) ==> IsLeaf(pages[f][v % NPTE]))
  {
    assert NodeOk(pages, own, L0(v / NPTE));
    assert WordOk(own, L0(v / NPTE), v % NPTE, pages[own[L0(v / NPTE)]][v % NPTE]);
  }

  lemma Unlinked(pages: Pages, own: Owner, v: nat)
    requires L0(v / NPTE) !in own
    ensures Flat(pages, own, v) == 0
  {
  }

  // Every page at or below t is in order and maps nothing.
  ghost predicate Empty(pages: Pages, own: Owner, t: Slot) {
    forall s :: s in own && Under(t, s) ==>
      NodeOk(pages, own, s) && (s.L0? ==> forall k :: 0 <= k < NPTE ==> pages[own[s]][k] == 0)
  }

  // Entries from k on of page t, and all pages below them, are still to be freed.
  ghost predicate EmptyFrom(pages: Pages, own: Owner, t: Slot, k: nat) {
    && t in own && own[t] in pages && |pages[own[t]]| == NPTE
    && (forall i :: k <= i < NPTE ==> WordOk(own, t, i, pages[own[t]][i]) && (t.L0? ==> pages[own[t]][i] == 0))
    && (forall s :: s in own && Under(t, s) && s != t ==>
          NodeOk(pages, own, s) && (s.L0? ==> forall i :: 0 <= i < NPTE ==> pages[own[s]][i] == 0))
  }

  // The pages that left the table were each put on the free list once.  Read from the
  // second state to the first: the pages that joined it were each taken off the free list.
  ghost predicate HandedBack(own: Owner, own': Owner, free: seq<nat>, free': seq<nat>) {
    && own'.Keys <= own.Keys && (forall t :: t in own' ==> own'[t] == own[t])
    && |own'.Keys| <= |own.Keys| && |free'| == |free| + |own.Keys| - |own'.Keys|
    && free'[|free'| - |free|..] == free
    && (forall t :: t in own && t !in own' ==> own[t] in free')
  }

  // The pages left in the table are untouched.
  ghost predicate Spared(pages: Pages, pages': Pages, own: Owner) {
    forall t :: t in own && own[t] in pages ==> own[t] in pages' && pages'[own[t]] == pages[own[t]]
  }

  lemma HandedTwice(own: Owner, o1: Owner, o2: Owner, free: seq<nat>, f1: seq<nat>, f2: seq<nat>)
    requires HandedBack(own, o1, free, f1) && HandedBack(o1, o2, f1, f2)
    ensures HandedBack(own, o2, free, f2)
  {
    assert f2[|f2| - |free|..] == f2[|f2| - |f1|..][|f1| - |free|..];
    forall t | t in own && t !in o2 ensures own[t] in f2 {
      if t !in o1 { assert own[t] in f1 && f1 == f2[|f2| - |f1|..]; }
    }
  }

  lemma HandedNone(own: Owner, free: seq<nat>)
    ensures HandedBack(own, own, free, free)
  {
  }

  lemma PageTaken(own: Owner, free: seq<nat>, t: Slot)
    requires t !in own && free != []
    ensures HandedBack(own[t := free[0]], own, free[1..], free)
  {
    assert own[t := free[0]].Keys == own.Keys + {t};
  }

  lemma PageFreed(own: Owner, free: seq<nat>, t: Slot)
    requires t in own && Injective(own) && Apart(own, free)
    ensures HandedBack(own, own - {t}, free, [own[t]] + free) && Apart(own - {t}, [own[t]] + free)
    ensures |(own - {t}).Keys| == |own.Keys| - 1
  {
    assert (own - {t}).Keys == own.Keys - {t};
  }

  // The entry that freewalk looks at next.
  lemma Down(pages: Pages, own: Owner, t: Slot, k: nat)
    requires EmptyFrom(pages, own, t, k) && k < NPTE && Tree(own)
    ensures var w := pages[own[t]][k]; (t.L0? ==> !IsValid(w)) && (!t.L0? ==> (IsValid(w) <==> Child(t, k) in own))
    ensures var w := pages[own[t]][k]; IsValid(w) ==>
      !IsLeaf(w) && FrameOf(w) == own[Child(t, k)] && Empty(pages, own, Child(t, k))
  {
    hide Word, FrameOf, IsValid, IsLeaf;
    assert WordOk(own, t, k, pages[own[t]][k]);
    if t.L0? {
      PointerFields(0);
    } else {
      PointerFields(if Child(t, k) in own then own[Child(t, k)] else 0);
      forall s | s in own && Under(Child(t, k), s) ensures Under(t, s) && s != t { }
    }
  }

  // Nothing below entry k.
  lemma Skipped(own0: Owner, pages: Pages, own: Owner, t: Slot, k: nat)
    requires EmptyFrom(pages, own, t, k) && k < NPTE && Tree(own0) && PrunedBelow(own0, own, t, k)
    requires t.L0? || Child(t, k) !in own
    ensures PrunedBelow(own0, own, t, k + 1) && EmptyFrom(pages, own, t, k + 1)
  {
    forall s | s in own0 ensures Below(t, k, s) <==> Below(t, k + 1, s) {
      assert s.L0? ==> L1(s.j / NPTE) in own0;
    }
  }

  // The pages below entry k are gone, and the entry is cleared.
  lemma Descended(own0: Owner, pages: Pages, own: Owner, pages': Pages, own': Owner, t: Slot, k: nat)
    requires EmptyFrom(pages, own, t, k) && k < NPTE && Tree(own0) && PrunedBelow(own0, own, t, k)
    requires !t.L0? && PrunedUnder(own, own', Child(t, k)) && Spared(pages, pages', own')
    ensures t in own' && own'[t] == own[t] && own[t] in pages' && |pages'[own[t]]| == NPTE
    ensures PrunedBelow(own0, own', t, k + 1)
  {
    assert t in own' && own'[t] == own[t];
    forall s | s in own0 ensures Below(t, k + 1, s) <==> Below(t, k, s) || Under(Child(t, k), s) { }
  }

  lemma DescendedRest(pages: Pages, own: Owner, pages': Pages, own': Owner, t: Slot, k: nat)
    requires EmptyFrom(pages, own, t, k) && k < NPTE && Injective(own) && Tree(own)
    requires !t.L0? && PrunedUnder(own, own', Child(t, k)) && Spared(pages, pages', own')
    requires t in own' && own'[t] == own[t] && own[t] in pages' && |pages'[own[t]]| == NPTE
    ensures EmptyFrom(pages'[own[t] := pages'[own[t]][k := 0]], own', t, k + 1)
  {
    var pages'' := pages'[own[t] := pages'[own[t]][k := 0]];
    forall i | k + 1 <= i < NPTE ensures WordOk(own', t, i, pages''[own'[t]][i]) {
      assert WordOk(own, t, i, pages[own[t]][i]) && !Under(Child(t, k), Child(t, i));
    }
    forall s | s in own' && Under(t, s) && s != t
      ensures NodeOk(pages'', own', s) && (s.L0? ==> forall i :: 0 <= i < NPTE ==> pages''[own'[s]][i] == 0)
    {
      assert NodeOk(pages, own, s) && !Under(Child(t, k), s);
      forall i | 0 <= i < NPTE ensures WordOk(own', s, i, pages''[own'[s]][i]) {
        assert WordOk(own, s, i, pages[own[s]][i]);
      }
    }
  }

  lemma Cleared(own0: Owner, own: Owner, t: Slot)
    requires PrunedBelow(own0, own, t, NPTE) && Tree(own0) && Tree(own) && (t.Root? || t.L1? || t.L0?)
    ensures PrunedUnder(own0, own - {t}, t) && Tree(own - {t})
  {
    forall s | s in own0 && s != t ensures Below(t, NPTE, s) <==> Under(t, s) { }
  }

  // Page t of a table can be freed.
  ghost predicate Freeable(pages: Pages, own: Owner, free: seq<nat>, t: Slot) {
    t in own && (t.Root? || t.L1? || t.L0?) && Tree(own) && Injective(own) && Apart(own, free)
  }

  /** Page t and all pages below it have been freed, each once, and nothing else has changed. */
  ghost predicate Freed(pages: Pages, own: Owner, free: seq<nat>, pages': Pages, own': Owner, free': seq<nat>,
      t: Slot) {
    && PrunedUnder(own, own', t) && HandedBack(own, own', free, free')
    && Tree(own') && Injective(own') && Apart(own', free') && Spared(pages, pages', own')
  }

  ghost predicate Freeing(pages: Pages, own: Owner, free: seq<nat>, pages': Pages, own': Owner, free': seq<nat>,
      t: Slot, k: nat) {
    && Tree(own) && PrunedBelow(own, own', t, k) && HandedBack(own, own', free, free')
    && Freeable(pages', own', free', t)
    && own'[t] == own[t] && EmptyFrom(pages', own', t, k) && Spared(pages, pages', own' - {t})
  }

  lemma FreeingStart(pages: Pages, own: Owner, free: seq<nat>, t: Slot)
    requires Freeable(pages, own, free, t) && Empty(pages, own, t)
    ensures t in own && (t.Root? || t.L1? || t.L0?) && Freeing(pages, own, free, pages, own, free, t, 0)
  {
    assert NodeOk(pages, own, t);
  }

  lemma FreeingDown(p0: Pages, own0: Owner, f0: seq<nat>, pages: Pages, own: Owner, free: seq<nat>, t: Slot, k: nat)
    requires Freeing(p0, own0, f0, pages, own, free, t, k) && k < NPTE
    ensures t in own0 && own0[t] in pages && |pages[own0[t]]| == NPTE
    ensures var w := pages[own0[t]][k];
      if IsValid(w) then !t.L0? && !IsLeaf(w) && Child(t, k) in own && own[Child(t, k)] == FrameOf(w)
        && Freeable(pages, own, free, Child(t, k)) && Empty(pages, own, Child(t, k))
      else Freeing(p0, own0, f0, pages, own, free, t, k + 1)
  {
    Down(pages, own, t, k);
    hide Tree, Injective, Apart, EmptyFrom, HandedBack, PrunedBelow, IsValid, IsLeaf, FrameOf, Spared;
    if !IsValid(pages[own[t]][k]) { Skipped(own0, pages, own, t, k); }
  }

  lemma FreeingNext(p0: Pages, own0: Owner, f0: seq<nat>, p1: Pages, own1: Owner, f1: seq<nat>,
                    pages: Pages, own: Owner, free: seq<nat>, t: Slot, k: nat)
    requires Freeing(p0, own0, f0, p1, own1, f1, t, k) && k < NPTE && !t.L0? && Child(t, k) in own1
    requires Freed(p1, own1, f1, pages, own, free, Child(t, k))
    ensures t in own0 && own0[t] in pages && |pages[own0[t]]| == NPTE
    ensures Freeing(p0, own0, f0, pages[own0[t] := pages[own0[t]][k := 0]], own, free, t, k + 1)
  {
    HandedTwice(own0, own1, own, f0, f1, free);
    Descended(own0, p1, own1, pages, own, t, k);
    DescendedRest(p1, own1, pages, own, t, k);
    SparedOthers(p0, p1, pages, own0, own1, own, t, k);
    hide Tree, Injective, Apart, EmptyFrom, HandedBack, PrunedBelow, PrunedUnder, Spared;
  }

  lemma SparedOthers(p0: Pages, p1: Pages, p2: Pages, own0: Owner, own1: Owner, own: Owner, t: Slot, k: nat)
    requires t in own && own[t] in p2 && |p2[own[t]]| == NPTE && k < NPTE && Injective(own)
    requires own.Keys <= own1.Keys && (forall s :: s in own ==> own[s] == own1[s])
    requires Spared(p0, p1, own1 - {t}) && Spared(p1, p2, own)
    ensures Spared(p0, p2[own[t] := p2[own[t]][k := 0]], own - {t})
  {
    var p3, rest := p2[own[t] := p2[own[t]][k := 0]], own - {t};
    forall s | s in rest && rest[s] in p0 ensures rest[s] in p3 && p3[rest[s]] == p0[rest[s]] {
      assert s in own && s in own1 - {t} && (own1 - {t})[s] == own[s] && own[s] != own[t];
    }
  }

  lemma FreeingDone(p0: Pages, own0: Owner, f0: seq<nat>, pages: Pages, own: Owner, free: seq<nat>, t: Slot)
    requires Freeing(p0, own0, f0, pages, own, free, t, NPTE)
    ensures t in own && t in own0 && own[t] == own0[t]
      && Freed(p0, own0, f0, pages - {own[t]}, own - {t}, [own[t]] + free, t)
  {
    PageFreed(own, free, t);
    Cleared(own0, own, t);
    HandedTwice(own0, own, own - {t}, f0, free, [own[t]] + free);
    hide HandedBack, PrunedBelow, PrunedUnder, Apart, EmptyFrom;
  }

  lemma Top(pages: Pages, own: Owner, free: seq<nat>)
    requires Ok(pages, own, free)
    ensures Root in own
  {
  }

  // What an entry of an upper page says.
  lemma EntryOf(pages: Pages, own: Owner, free: seq<nat>, t: Slot, k: nat)
    requires Ok(pages, own, free) && t in own && (t.Root? || t.L1?) && k < NPTE
    ensures own[t] in pages && |pages[own[t]]| == NPTE
    ensures var w := pages[own[t]][k];
      (IsValid(w) <==> Child(t, k) in own) && (IsValid(w) ==> FrameOf(w) == own[Child(t, k)])
  {
    hide Word, FrameOf, IsValid, IsLeaf;
    assert NodeOk(pages, own, t) && WordOk(own, t, k, pages[own[t]][k]);
    PointerFields(if Child(t, k) in own then own[Child(t, k)] else 0);
  }

  lemma Missing(pages: Pages, own: Owner, free: seq<nat>, level: nat, v: nat)
    requires Ok(pages, own, free) && v < MAXVPN && 1 <= level <= 2
    requires NodeFor(level - 1, v) !in own
    ensures L0(v / NPTE) !in own
  {
  }

  lemma OnlyNodes(pages: Pages, own: Owner, free: seq<nat>)
    requires Ok(pages, own, free)
    ensures forall t :: t in own ==> Under(Root, t)
  {
  }

  // A table that maps nothing can be freed.
  lemma BlankTable(pages: Pages, own: Owner, free: seq<nat>)
    requires Ok(pages, own, free) && forall v: nat :: Flat(pages, own, v) == 0
    ensures Freeable(pages, own, free, Root) && Empty(pages, own, Root)
  {
    forall s | s in own && Under(Root, s)
      ensures NodeOk(pages, own, s) && (s.L0? ==> forall k :: 0 <= k < NPTE ==> pages[own[s]][k] == 0)
    {
      assert NodeOk(pages, own, s);
      if s.L0? {
        forall k | 0 <= k < NPTE ensures pages[own[s]][k] == 0 {
          assert Flat(pages, own, s.j * NPTE + k) == pages[own[s]][k];
        }
      }
    }
  }

  // The flag bits of a word: V 0, R 1, W 2, X 3, U 4 and COW 8.
  function Bit(w: int, k: nat): bool
    requires k in {1, 2, 4, 8, 16, 256}
  {
    w / k % 2 == 1
  }

  function Decode(w: int): Pte
    requires w >= 0
  {
    Pte(FrameOf(w), Bit(w, 2), Bit(w, 4), Bit(w, 8), Bit(w, 16), Bit(w, 256))
  }

  function Flag(b: bool, k: nat): nat { if b then k else 0 }

  function Flags(e: Pte): nat { V + Flag(e.r, 2) + Flag(e.w, 4) + Flag(e.x, 8) + Flag(e.u, 16) + Flag(e.cow, 256) }

  lemma FlagBits(e: Pte)
    ensures Flags(e) < FLAGS && IsValid(Flags(e)) && (IsLeaf(Flags(e)) <==> e.r || e.w || e.x)
    ensures Bit(Flags(e), 2) == e.r && Bit(Flags(e), 4) == e.w && Bit(Flags(e), 8) == e.x && Bit(Flags(e), 16) == e.u
      && Bit(Flags(e), 256) == e.cow
  {
  }

  lemma LowBit2(f: nat, flags: nat)
    ensures Bit(Word(f, flags), 2) == Bit(flags, 2)
  {
    assert Word(f, flags) / 2 == 2 * (f * 256) + flags / 2;
  }

  lemma LowBit4(f: nat, flags: nat)
    ensures Bit(Word(f, flags), 4) == Bit(flags, 4)
  {
    assert Word(f, flags) / 4 == 2 * (f * 128) + flags / 4;
  }

  lemma LowBit8(f: nat, flags: nat)
    ensures Bit(Word(f, flags), 8) == Bit(flags, 8)
  {
    assert Word(f, flags) / 8 == 2 * (f * 64) + flags / 8;
  }

  lemma LowBit16(f: nat, flags: nat)
    ensures Bit(Word(f, flags), 16) == Bit(flags, 16)
  {
    assert Word(f, flags) / 16 == 2 * (f * 32) + flags / 16;
  }

  lemma LowBit256(f: nat, flags: nat)
    ensures Bit(Word(f, flags), 256) == Bit(flags, 256)
  {
    assert Word(f, flags) / 256 == 2 * (f * 2) + flags / 256;
  }

  /** An entry written as a word reads back as that entry. */
  lemma EntryRoundTrip(e: Pte)
    ensures Decode(Word(e.frame, Flags(e))) == e
  {
    hide Word, Bit, Flags, FrameOf;
    FlagBits(e);
    WordSplit(e.frame, Flags(e));
    LowBit2(e.frame, Flags(e));
    LowBit4(e.frame, Flags(e));
    LowBit8(e.frame, Flags(e));
    LowBit16(e.frame, Flags(e));
    LowBit256(e.frame, Flags(e));
  }

  /** The pages in memory hold the table m. */
  ghost predicate Represents(pages: Pages, own: Owner, m: Slots) {
    && (forall t: Slot :: t.Root? || t.L1? || t.L0? ==>
         (t in m <==> t in own) && (t in own && t in m ==> m[t] == Node(own[t])))
    && (forall v: nat :: Leaf(v) in m <==> Flat(pages, own, v) != 0)
    && (forall v: nat :: Leaf(v) in m ==> Flat(pages, own, v) > 0 && m[Leaf(v)] == Decode(Flat(pages, own, v)))
  }

  /** Linking an interior page in memory adds its slot to the table. */
  lemma NodeRepresented(pages: Pages, own: Owner, free: seq<nat>, m: Slots, t: Slot, k: nat)
    requires Ok(pages, own, free) && t in own && (t.Root? || t.L1?) && k < NPTE && Child(t, k) !in own && free != []
    requires Represents(pages, own, m)
    ensures own[t] in pages && |pages[own[t]]| == NPTE
    ensures var f := free[0];
      Represents(pages[f := Zeros()][own[t] := pages[own[t]][k := Word(f, V)]], own[Child(t, k) := f],
        m[Child(t, k) := Node(f)])
  {
    NodeLinked(pages, own, free, t, k);
    forall v: nat { NodeLinkedFlat(pages, own, free, t, k, v); }
    hide Ok, Flat, Word, Decode;
  }

  /** Writing a last-level entry in memory maps or unmaps its page in the table. */
  lemma LeafRepresented(pages: Pages, own: Owner, free: seq<nat>, m: Slots, v: nat, e: Option<Pte>)
    requires Ok(pages, own, free) && L0(v / NPTE) in own && Represents(pages, own, m) && (e.Some? ==> e.value.r)
    ensures own[L0(v / NPTE)] in pages && |pages[own[L0(v / NPTE)]]| == NPTE
    ensures var f, w := own[L0(v / NPTE)], if e.Some? then Word(e.value.frame, Flags(e.value)) else 0;
      Represents(pages[f := pages[f][v % NPTE := w]], own, if e.Some? then m[Leaf(v) := e.value] else m - {Leaf(v)})
  {
    hide Ok, Flat, Word, Decode, Flags, IsValid, IsLeaf;
    var w := if e.Some? then Word(e.value.frame, Flags(e.value)) else 0;
    if e.Some? {
      EntryRoundTrip(e.value);
      FlagBits(e.value);
      WordValid(e.value.frame, Flags(e.value));
      WordLeaf(e.value.frame, Flags(e.value));
      NotZero(w);
    }
    assert v / NPTE * NPTE + v % NPTE == v;
    LeafSet(pages, own, free, v / NPTE, v % NPTE, w);
  }

  lemma NotZero(w: int)
    requires IsValid(w)
    ensures w != 0
  {
  }
}
