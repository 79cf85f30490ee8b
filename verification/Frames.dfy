/** Physical frames, their reference counts and free list (kernel/kalloc.c), and
    the page tables that refer to them.  A process is the set of slots of its
    page table: the pages of the table itself, its leaf entries and the pointer
    to its trapframe. */
module Frames {
  import opened Options
  import opened Sets

  const PGSIZE: nat := 4096
  const NPROC: nat := 64
  const MAXVPN: nat := 0x4000000     // MAXVA / PGSIZE
  const TRAMPOLINE: nat := MAXVPN - 1
  const TRAPFRAME: nat := MAXVPN - 2

  datatype Slot = Root | L1(i: nat) | L0(j: nat) | Leaf(v: nat) | Tf

  // A page table entry, or a pointer to a page of the table: frame and flags.
  datatype Pte = Pte(frame: nat, r: bool, w: bool, x: bool, u: bool, cow: bool)

  datatype Proc = Proc(slots: map<Slot, Pte>, sz: nat)

  // What keeps a frame allocated: a slot of a process, or a kernel local variable.
  datatype Ref = Temp | At(p: nat, slot: Slot)

  datatype State = State(page: seq<seq<int>>, counter: seq<int>, free: seq<nat>, procs: map<nat, Proc>,
      refs: seq<set<Ref>>)

  // The trampoline and trapframe entries are mapped without owning their frames.
  predicate Counted(slot: Slot) { slot.Leaf? ==> slot.v < TRAPFRAME }

  predicate Has(s: State, p: nat, slot: Slot) { p in s.procs && slot in s.procs[p].slots }

  function Entry(s: State, p: nat, slot: Slot): Pte
    requires Has(s, p, slot)
  {
    s.procs[p].slots[slot]
  }

  // The 8-bit counter wraps.
  function Inc(c: int): int { (c + 1) % 256 }
  function Dec(c: int): int { (c - 1) % 256 }

  ghost predicate InPool(s: State, first: nat, f: int) { first <= f < |s.refs| }

  ghost predicate Inv(s: State, first: nat) {
    && |s.counter| == |s.page| == |s.refs|
    && CountsMatch(s, first) && FreeMatch(s, first) && FullPages(s) && Tables(s, first)
    && (forall p :: p in s.procs ==> p < NPROC)
  }

  ghost predicate Tables(s: State, first: nat) {
    SlotsOwn(s, first) && RefsHeld(s, first) && Exclusive(s, first) && SameVpn(s, first) && WritableAlone(s)
  }

  // A frame's counter is the number of references to it.
  ghost predicate CountsMatch(s: State, first: nat) {
    |s.counter| == |s.refs| && forall f :: InPool(s, first, f) ==> s.counter[f] == |s.refs[f]|
  }

  // A frame is on the free list exactly when nothing refers to it, and once.
  ghost predicate FreeMatch(s: State, first: nat) {
    && (forall f {:trigger f in s.free} :: f in s.free ==> InPool(s, first, f) && s.refs[f] == {})
    && (forall f {:trigger s.refs[f]} :: InPool(s, first, f) && s.refs[f] == {} ==> f in s.free)
    && (forall i, j :: 0 <= i < j < |s.free| ==> s.free[i] != s.free[j])
  }

  ghost predicate SlotsOwn(s: State, first: nat) {
    forall p, slot {:trigger Has(s, p, slot)} :: Has(s, p, slot) && Counted(slot) ==>
      InPool(s, first, Entry(s, p, slot).frame) && At(p, slot) in s.refs[Entry(s, p, slot).frame]
  }

  ghost predicate RefsHeld(s: State, first: nat) {
    forall f, r {:trigger r in s.refs[f]} :: InPool(s, first, f) && r in s.refs[f] && r.At? ==>
      Has(s, r.p, r.slot) && Counted(r.slot) && Entry(s, r.p, r.slot).frame == f
  }

  // Only user pages are shared ...
  ghost predicate Exclusive(s: State, first: nat) {
    forall f, r {:trigger r in s.refs[f]} :: InPool(s, first, f) && r in s.refs[f] && !(r.At? && r.slot.Leaf?) ==>
      s.refs[f] == {r}
  }

  // ... and always at the same virtual page.
  ghost predicate SameVpn(s: State, first: nat) {
    forall f, r, r' {:trigger r in s.refs[f], r' in s.refs[f]} ::
      InPool(s, first, f) && r in s.refs[f] && r' in s.refs[f] && r.At? && r'.At? ==> r.slot == r'.slot
  }

  // No entry is both writable and copy-on-write, and a writable page is not shared.
  ghost predicate WritableAlone(s: State) {
    forall p, v: nat {:trigger Has(s, p, Leaf(v))} :: Has(s, p, Leaf(v)) && v < TRAPFRAME ==>
      var e := Entry(s, p, Leaf(v));
      !(e.w && e.cow) && (e.w && e.frame < |s.refs| ==> s.refs[e.frame] == {At(p, Leaf(v))})
  }

  ghost predicate FullPages(s: State) {
    forall f :: 0 <= f < |s.page| ==> |s.page[f]| == PGSIZE
  }

  function Filled(b: int): (r: seq<int>)
    ensures |r| == PGSIZE
  {
    seq(PGSIZE, i => b)
  }

  predicate AllZero(bytes: seq<int>) { |bytes| == PGSIZE && forall i :: 0 <= i < |bytes| ==> bytes[i] == 0 }

  lemma ZeroFilled()
    ensures AllZero(Filled(0))
  {
  }

  // kalloc: unlink the first free frame, count it and fill it with junk.
  function Took(s: State): State
    requires s.free != [] && s.free[0] < |s.counter| && s.free[0] < |s.page|
  {
    var f := s.free[0];
    s.(free := s.free[1..], page := s.page[f := Filled(5)], counter := s.counter[f := Inc(s.counter[f])])
  }

  // kfree: drop one count, and put the frame back when that was the last.
  function Gave(s: State, f: nat): State
    requires f < |s.counter| && f < |s.page|
  {
    var c := Dec(s.counter[f]);
    if c > 0 then s.(counter := s.counter[f := c])
    else s.(counter := s.counter[f := c], page := s.page[f := Filled(1)], free := [f] + s.free)
  }

  function WithSlot(s: State, p: nat, slot: Slot, e: Pte): State
    requires p in s.procs
  {
    s.(procs := s.procs[p := s.procs[p].(slots := s.procs[p].slots[slot := e])])
  }

  function WithoutSlot(s: State, p: nat, slot: Slot): State
    requires p in s.procs
  {
    s.(procs := s.procs[p := s.procs[p].(slots := s.procs[p].slots - {slot})])
  }

  // What a user page looks like from inside the process; sharing does not show.
  datatype View = View(bytes: seq<int>, r: bool, w: bool, x: bool, u: bool)

  function Look(s: State, p: nat, v: nat): Option<View> {
    if Has(s, p, Leaf(v)) && v < TRAPFRAME && Entry(s, p, Leaf(v)).frame < |s.page| then
      var e := Entry(s, p, Leaf(v));
      Some(View(s.page[e.frame], e.r, e.w || e.cow, e.x, e.u))
    else None
  }

  // The references that processes numbered below n could make through one slot.
  ghost function AllAt(slot: Slot, n: nat): set<Ref> {
    if n == 0 then {} else AllAt(slot, n - 1) + {At(n - 1, slot)}
  }

  lemma {:induction false} AllAtIs(slot: Slot, n: nat)
    ensures |AllAt(slot, n)| == n && forall r :: r in AllAt(slot, n) <==> r.At? && r.p < n && r.slot == slot
  {
    if n > 0 { AllAtIs(slot, n - 1); }
  }

  /** A frame has at most one reference per process, so the 8-bit counter never wraps. */
  lemma CounterBound(s: State, first: nat, f: nat)
    requires Inv(s, first) && InPool(s, first, f)
    ensures 0 <= s.counter[f] == |s.refs[f]| <= NPROC
  {
    if s.refs[f] != {} {
      var r :| r in s.refs[f];
      if r.At? {
        AllAtIs(r.slot, NPROC);
        SubsetSize(s.refs[f], AllAt(r.slot, NPROC)) by {
          forall r' | r' in s.refs[f] ensures r' in AllAt(r.slot, NPROC) { assert r'.At?; }
        }
      }
    }
  }

  /** So neither increase_count nor decrease_count of a frame in use ever wraps, and the count that
      kfree tests is never negative. */
  lemma NoWrap(s: State, first: nat, f: nat)
    requires Inv(s, first) && InPool(s, first, f)
    ensures Inc(s.counter[f]) == s.counter[f] + 1
    ensures s.refs[f] != {} ==> Dec(s.counter[f]) == s.counter[f] - 1 >= 0
  {
    CounterBound(s, first, f);
  }

  // A process that does not refer to the frame leaves room for one more.
  lemma RoomForOne(s: State, first: nat, f: nat, q: nat, v: nat)
    requires Inv(s, first) && InPool(s, first, f) && q < NPROC && !Has(s, q, Leaf(v))
    requires exists p :: At(p, Leaf(v)) in s.refs[f]
    ensures |s.refs[f]| < NPROC && At(q, Leaf(v)) !in s.refs[f]
  {
    var all := AllAt(Leaf(v), NPROC);
    AllAtIs(Leaf(v), NPROC);
    assert At(q, Leaf(v)) !in s.refs[f];
    forall r | r in s.refs[f] ensures r in all - {At(q, Leaf(v))} { assert r.At?; }
    SubsetSize(s.refs[f], all - {At(q, Leaf(v))});
  }

  lemma TailOf(free: seq<nat>)
    requires free != [] && forall i, j :: 0 <= i < j < |free| ==> free[i] != free[j]
    ensures forall g :: g in free[1..] <==> g in free && g != free[0]
  {
    assert free == [free[0]] + free[1..];
    forall g | g in free[1..] ensures g != free[0] {
      var k :| 0 <= k < |free[1..]| && free[1..][k] == g;
      assert free[k + 1] == g;
    }
  }

  ghost function Head(s: State, first: nat): (f: nat)
    requires Inv(s, first) && s.free != []
    ensures f == s.free[0] && InPool(s, first, f) && s.refs[f] == {} && s.counter[f] == 0
  {
    assert s.free[0] in s.free;
    s.free[0]
  }

  // kalloc leaves the frame held by a kernel local.
  ghost function Taken(s: State, first: nat): State
    requires Inv(s, first) && s.free != []
  {
    var f := Head(s, first);
    Took(s).(refs := s.refs[f := {Temp}])
  }

  lemma TakeKeeps(s: State, first: nat)
    requires Inv(s, first) && s.free != []
    ensures Inv(Taken(s, first), first)
    ensures forall p, v: nat :: Look(Taken(s, first), p, v) == Look(s, p, v)
  {
    TakeTables(s, first);
    TakeFree(s, first);
    hide Tables, FreeMatch;
    CounterBound(s, first, Head(s, first));
  }

  lemma TakeFree(s: State, first: nat)
    requires Inv(s, first) && s.free != []
    ensures FreeMatch(Taken(s, first), first)
  {
    TailOf(s.free);
    hide Tables;
  }

  lemma TakeTables(s: State, first: nat)
    requires Inv(s, first) && s.free != []
    ensures Tables(Taken(s, first), first)
    ensures forall p, v: nat :: Look(Taken(s, first), p, v) == Look(s, p, v)
  {
    var f, s' := Head(s, first), Taken(s, first);
    hide FreeMatch, CountsMatch;
    assert forall p, slot :: Has(s', p, slot) <==> Has(s, p, slot);
    forall p, v: nat ensures Look(s', p, v) == Look(s, p, v) {
      if Has(s, p, Leaf(v)) && v < TRAPFRAME { assert Entry(s, p, Leaf(v)).frame != f; }
    }
  }

  // A frame held by a kernel local goes into a slot.
  ghost function Placed(s: State, p: nat, slot: Slot, e: Pte): State
    requires p in s.procs && e.frame < |s.refs|
  {
    WithSlot(s, p, slot, e).(refs := s.refs[e.frame := {At(p, slot)}])
  }

  lemma PlaceKeeps(s: State, first: nat, p: nat, slot: Slot, e: Pte)
    requires Inv(s, first) && p in s.procs && InPool(s, first, e.frame) && s.refs[e.frame] == {Temp}
    requires !Has(s, p, slot) && Counted(slot) && !(e.w && e.cow)
    ensures Inv(Placed(s, p, slot, e), first)
    ensures forall q, v: nat :: !(q == p && slot == Leaf(v)) ==> Look(Placed(s, p, slot, e), q, v) == Look(s, q, v)
  {
    PlaceTables(s, first, p, slot, e);
    hide Tables;
    var s' := Placed(s, p, slot, e);
    assert forall q, t :: Has(s', q, t) <==> Has(s, q, t) || (q == p && t == slot);
    assert forall q, t :: Has(s, q, t) ==> Entry(s', q, t) == Entry(s, q, t);
  }

  lemma PlaceTables(s: State, first: nat, p: nat, slot: Slot, e: Pte)
    requires Inv(s, first) && p in s.procs && InPool(s, first, e.frame) && s.refs[e.frame] == {Temp}
    requires !Has(s, p, slot) && Counted(slot) && !(e.w && e.cow)
    ensures Tables(Placed(s, p, slot, e), first)
  {
    hide FreeMatch, CountsMatch;
    var s' := Placed(s, p, slot, e);
    assert forall q, t :: Has(s', q, t) <==> Has(s, q, t) || (q == p && t == slot);
    assert forall q, t :: Has(s, q, t) ==> Entry(s', q, t) == Entry(s, q, t);
    assert Temp in s.refs[e.frame];
  }

  // fork gives q the entry that p has at v: same frame, one more count.
  ghost function Shared(s: State, p: nat, q: nat, v: nat): State
    requires Has(s, p, Leaf(v)) && q in s.procs && Entry(s, p, Leaf(v)).frame < |s.refs| && |s.refs| == |s.counter|
  {
    var e := Entry(s, p, Leaf(v));
    WithSlot(s, q, Leaf(v), e).(counter := s.counter[e.frame := Inc(s.counter[e.frame])],
                                refs := s.refs[e.frame := s.refs[e.frame] + {At(q, Leaf(v))}])
  }

  lemma ShareTables(s: State, first: nat, p: nat, q: nat, v: nat)
    requires Tables(s, first) && Has(s, p, Leaf(v)) && v < TRAPFRAME && !Entry(s, p, Leaf(v)).w
    requires q in s.procs && !Has(s, q, Leaf(v)) && |s.refs| == |s.counter|
    ensures InPool(s, first, Entry(s, p, Leaf(v)).frame) && At(p, Leaf(v)) in s.refs[Entry(s, p, Leaf(v)).frame]
    ensures Tables(Shared(s, p, q, v), first)
  {
    var e, s' := Entry(s, p, Leaf(v)), Shared(s, p, q, v);
    assert At(p, Leaf(v)) in s.refs[e.frame];
    assert forall o, t :: Has(s', o, t) <==> Has(s, o, t) || (o == q && t == Leaf(v));
    assert forall o, t :: Has(s, o, t) ==> Entry(s', o, t) == Entry(s, o, t);
    assert Entry(s', q, Leaf(v)) == e;
  }

  lemma ShareKeeps(s: State, first: nat, p: nat, q: nat, v: nat)
    requires Inv(s, first) && Has(s, p, Leaf(v)) && v < TRAPFRAME && !Entry(s, p, Leaf(v)).w
    requires q in s.procs && !Has(s, q, Leaf(v))
    ensures InPool(s, first, Entry(s, p, Leaf(v)).frame)
    ensures Inv(Shared(s, p, q, v), first)
  {
    hide Tables, FreeMatch;
    ShareTables(s, first, p, q, v);
    var f := Entry(s, p, Leaf(v)).frame;
    RoomForOne(s, first, f, q, v);
    FreeAfter(s, Shared(s, p, q, v), first, f);
  }

  lemma ShareLooks(s: State, first: nat, p: nat, q: nat, v: nat)
    requires Inv(s, first) && Has(s, p, Leaf(v)) && v < TRAPFRAME && q in s.procs && !Has(s, q, Leaf(v))
    ensures InPool(s, first, Entry(s, p, Leaf(v)).frame)
    ensures Look(Shared(s, p, q, v), q, v) == Look(s, p, v)
    ensures forall o, u: nat :: !(o == q && u == v) ==> Look(Shared(s, p, q, v), o, u) == Look(s, o, u)
  {
    hide Inv, Look, Shared;
    SharedInPool(s, first, p, v);
    forall o, u: nat ensures Look(Shared(s, p, q, v), o, u) == if o == q && u == v then Look(s, p, v)
      else Look(s, o, u) {
      ShareLooksAt(s, first, p, q, v, o, u);
    }
  }

  lemma SharedInPool(s: State, first: nat, p: nat, v: nat)
    requires Inv(s, first) && Has(s, p, Leaf(v)) && v < TRAPFRAME
    ensures InPool(s, first, Entry(s, p, Leaf(v)).frame) && |s.refs| == |s.counter| == |s.page|
  {
    assert At(p, Leaf(v)) in s.refs[Entry(s, p, Leaf(v)).frame];
  }

  lemma ShareLooksAt(s: State, first: nat, p: nat, q: nat, v: nat, o: nat, u: nat)
    requires Inv(s, first) && Has(s, p, Leaf(v)) && v < TRAPFRAME && q in s.procs && !Has(s, q, Leaf(v))
    requires InPool(s, first, Entry(s, p, Leaf(v)).frame) && |s.refs| == |s.counter| == |s.page|
    ensures Look(Shared(s, p, q, v), o, u) == if o == q && u == v then Look(s, p, v) else Look(s, o, u)
  {
    hide Inv;
  }

  // A writable page becomes copy-on-write.
  ghost function Protected(s: State, p: nat, v: nat): State
    requires Has(s, p, Leaf(v))
  {
    WithSlot(s, p, Leaf(v), Entry(s, p, Leaf(v)).(w := false, cow := true))
  }

  lemma ProtectKeeps(s: State, first: nat, p: nat, v: nat)
    requires Inv(s, first) && Has(s, p, Leaf(v)) && v < TRAPFRAME && Entry(s, p, Leaf(v)).w
    ensures Inv(Protected(s, p, v), first)
    ensures forall q, u: nat :: Look(Protected(s, p, v), q, u) == Look(s, q, u)
  {
    var s' := Protected(s, p, v);
    assert forall q, t :: Has(s', q, t) <==> Has(s, q, t);
    assert forall q, t :: Has(s, q, t) && !(q == p && t == Leaf(v)) ==> Entry(s', q, t) == Entry(s, q, t);
  }

  // A slot is cleared and its frame freed.
  ghost function Dropped(s: State, p: nat, slot: Slot): State
    requires Has(s, p, slot) && Entry(s, p, slot).frame < |s.refs| && |s.refs| == |s.counter| == |s.page|
  {
    var f := Entry(s, p, slot).frame;
    WithoutSlot(Gave(s, f), p, slot).(refs := s.refs[f := s.refs[f] - {At(p, slot)}])
  }

  lemma DropTables(s: State, first: nat, p: nat, slot: Slot)
    requires Tables(s, first) && Has(s, p, slot) && Counted(slot) && |s.refs| == |s.counter| == |s.page|
    ensures InPool(s, first, Entry(s, p, slot).frame) && At(p, slot) in s.refs[Entry(s, p, slot).frame]
    ensures Tables(Dropped(s, p, slot), first)
  {
    var f, s' := Entry(s, p, slot).frame, Dropped(s, p, slot);
    assert At(p, slot) in s.refs[f];
    assert forall q, t :: Has(s', q, t) <==> Has(s, q, t) && !(q == p && t == slot);
    assert forall q, t :: Has(s', q, t) ==> Entry(s', q, t) == Entry(s, q, t);
  }

  lemma DropKeeps(s: State, first: nat, p: nat, slot: Slot)
    requires Inv(s, first) && Has(s, p, slot) && Counted(slot)
    ensures InPool(s, first, Entry(s, p, slot).frame)
    ensures Inv(Dropped(s, p, slot), first)
  {
    hide Tables, FreeMatch;
    DropTables(s, first, p, slot);
    var f, s' := Entry(s, p, slot).frame, Dropped(s, p, slot);
    CounterBound(s, first, f);
    assert |s'.refs[f]| == |s.refs[f]| - 1;
    FreeAfter(s, s', first, f);
  }

  // The free list after a kfree of f.
  lemma FreeAfter(s: State, s': State, first: nat, f: nat)
    requires FreeMatch(s, first) && InPool(s, first, f) && s.refs[f] != {} && |s'.refs| == |s.refs|
    requires forall g :: 0 <= g < |s.refs| && g != f ==> s'.refs[g] == s.refs[g]
    requires if s'.refs[f] == {} then s'.free == [f] + s.free else s'.free == s.free
    ensures FreeMatch(s', first)
  {
    assert f !in s.free;
  }

  lemma DropLooks(s: State, first: nat, p: nat, slot: Slot)
    requires Inv(s, first) && Has(s, p, slot) && Counted(slot)
    ensures InPool(s, first, Entry(s, p, slot).frame)
    ensures forall q, v: nat :: !(q == p && slot == Leaf(v)) ==> Look(Dropped(s, p, slot), q, v) == Look(s, q, v)
  {
    var f, s' := Entry(s, p, slot).frame, Dropped(s, p, slot);
    CounterBound(s, first, f);
    assert At(p, slot) in s.refs[f];
    assert forall q, t :: Has(s', q, t) <==> Has(s, q, t) && !(q == p && t == slot);
    forall q, v: nat | !(q == p && slot == Leaf(v)) ensures Look(s', q, v) == Look(s, q, v) {
      if Has(s, q, Leaf(v)) && v < TRAPFRAME {
        var g := Entry(s, q, Leaf(v)).frame;
        assert At(q, Leaf(v)) in s.refs[g];
        if g == f { assert |s.refs[f]| > 1 by { SubsetSize({At(p, slot), At(q, Leaf(v))}, s.refs[f]); } }
      }
    }
  }

  // A frame held by a kernel local is freed.
  ghost function TempDropped(s: State, f: nat): State
    requires f < |s.refs| && |s.refs| == |s.counter| == |s.page|
  {
    Gave(s, f).(refs := s.refs[f := {}])
  }

  lemma DropTempKeeps(s: State, first: nat, f: nat)
    requires Inv(s, first) && InPool(s, first, f) && s.refs[f] == {Temp}
    ensures Inv(TempDropped(s, f), first)
    ensures forall p, v: nat :: Look(TempDropped(s, f), p, v) == Look(s, p, v)
  {
    var s' := TempDropped(s, f);
    assert Temp in s.refs[f];
    CounterBound(s, first, f);
    FreeAfter(s, s', first, f);
    assert forall q, t :: Has(s', q, t) <==> Has(s, q, t);
    forall p, v: nat ensures Look(s', p, v) == Look(s, p, v) {
      if Has(s, p, Leaf(v)) && v < TRAPFRAME { assert Entry(s, p, Leaf(v)).frame != f; }
    }
  }

  // Bytes change in a frame no other process maps.
  lemma FillKeeps(s: State, first: nat, f: nat, bytes: seq<int>)
    requires Inv(s, first) && f < |s.page| && |bytes| == PGSIZE
    ensures Inv(s.(page := s.page[f := bytes]), first)
  {
    var s' := s.(page := s.page[f := bytes]);
    assert forall q, t :: Has(s', q, t) <==> Has(s, q, t);
  }
}
