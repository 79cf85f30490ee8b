/** The machine that copy-on-write must be indistinguishable from: fork copies
    every page at once, and no two processes share anything. */
module Eager {
  import opened Frames
  import Cow

  // A user address space: its pages from address 0 up, and its size in bytes.
  datatype Mem = Mem(pages: seq<View>, sz: nat)

  type Machine = map<nat, Mem>

  function Zeroed(): View { View(Filled(0), true, true, false, true) }

  // The bytes of a page at base after data is stored at va.
  function Patch(bytes: seq<int>, base: int, va: int, data: seq<int>): (r: seq<int>)
    ensures |r| == |bytes|
  {
    seq(|bytes|, i requires 0 <= i < |bytes| => if va <= base + i < va + |data| then data[base + i - va] else bytes[i])
  }

  function Stored(pages: seq<View>, va: int, data: seq<int>): (r: seq<View>)
    ensures |r| == |pages|
  {
    seq(|pages|, v requires 0 <= v < |pages| => pages[v].(bytes := Patch(pages[v].bytes, v * PGSIZE, va, data)))
  }

  function Resized(m: Mem, sz: nat): Mem {
    var n := Cow.Pages(sz);
    Mem(if n <= |m.pages| then m.pages[..n] else m.pages + seq(n - |m.pages|, _ => Zeroed()), sz)
  }

  // Whether a user may store at va: a readable fact of the address space alone.
  predicate Storable(m: Mem, va: nat) {
    va / PGSIZE < |m.pages| && m.pages[va / PGSIZE].u && m.pages[va / PGSIZE].w
  }

  predicate Readable(m: Mem, va: nat) {
    va / PGSIZE < |m.pages| && m.pages[va / PGSIZE].u
  }

  // Every page is a full page.
  predicate Full(pages: seq<View>) { forall v :: 0 <= v < |pages| ==> |pages[v].bytes| == PGSIZE }

  function ByteAt(pages: seq<View>, va: nat): int
    requires Full(pages) && va / PGSIZE < |pages|
  {
    pages[va / PGSIZE].bytes[va % PGSIZE]
  }

  predicate Executable(m: Mem, va: nat) {
    va / PGSIZE < |m.pages| && m.pages[va / PGSIZE].u && m.pages[va / PGSIZE].x
  }

  predicate ByteIs(m: Mem, va: nat, b: int) {
    Full(m.pages) && va / PGSIZE < |m.pages| && b == ByteAt(m.pages, va)
  }

  // The page of address x starts below sz.
  predicate Within(x: nat, sz: nat) { x / PGSIZE * PGSIZE < sz }

  // Address x keeps its byte and its permissions.
  ghost predicate KeptAt(m: Mem, m': Mem, x: nat) {
    && (Readable(m', x) <==> Readable(m, x)) && (Storable(m', x) <==> Storable(m, x))
    && (Executable(m', x) <==> Executable(m, x)) && forall b :: ByteIs(m', x, b) <==> ByteIs(m, x, b)
  }

  /** What a process sees at address x after its memory was resized to sz bytes: nothing past the last
      page, zeros that it may read and write where there was nothing before, and all else as before. */
  ghost predicate SeenAt(m: Mem, m': Mem, sz: nat, x: nat) {
    if !Within(x, sz) then !Readable(m', x) && !Storable(m', x)
    else if Within(x, m.sz) then KeptAt(m, m', x)
    else Readable(m', x) && Storable(m', x) && !Executable(m', x) && ByteIs(m', x, 0)
  }

  // Whole pages, as many as the size takes.
  predicate Well(m: Mem) { Full(m.pages) && |m.pages| == Cow.Pages(m.sz) }

  lemma WithinPages(x: nat, sz: nat)
    ensures Within(x, sz) <==> x / PGSIZE < Cow.Pages(sz)
  {
    var v := x / PGSIZE;
    assert Cow.Pages(sz) == (sz + 4095) / 4096;
    if v * 4096 < sz { assert v < (sz + 4095) / 4096; }
    if v < (sz + 4095) / 4096 { assert v * 4096 < sz; }
  }

  lemma ResizedSeen(m: Mem, sz: nat, x: nat)
    requires Well(m)
    ensures Well(Resized(m, sz)) && Resized(m, sz).sz == sz && SeenAt(m, Resized(m, sz), sz, x)
  {
    WithinPages(x, sz);
    WithinPages(x, m.sz);
    hide Within;
    ZeroFilled();
    var m' := Resized(m, sz);
    var v := x / PGSIZE;
    if v < |m'.pages| { assert m'.pages[v] == if v < |m.pages| then m.pages[v] else Zeroed(); }
  }

  // The bytes read from va on.
  ghost predicate Got(m: Mem, va: nat, dst: seq<int>) {
    forall i :: 0 <= i < |dst| ==> GotByte(m, va + i, dst[i])
  }

  ghost predicate GotByte(m: Mem, x: nat, b: int) {
    Full(m.pages) && Readable(m, x) && b == ByteAt(m.pages, x)
  }

  lemma GotMore(m: Mem, va: nat, done: seq<int>, v: nat, off: nat, n: nat)
    requires Got(m, va, done) && Full(m.pages) && v < |m.pages| && m.pages[v].u && off + n <= PGSIZE
      && va + |done| == v * PGSIZE + off
    ensures Got(m, va, done + m.pages[v].bytes[off..off + n])
  {
    var dst := done + m.pages[v].bytes[off..off + n];
    forall i | 0 <= i < |dst| ensures GotByte(m, va + i, dst[i]) {
      if i < |done| {
        assert dst[i] == done[i];
      } else {
        var k := i - |done|;
        assert va + i == v * PGSIZE + (off + k) && (va + i) / PGSIZE == v && (va + i) % PGSIZE == off + k;
      }
    }
  }

  lemma StoredNothing(pages: seq<View>, va: int)
    ensures Stored(pages, va, []) == pages
  {
    forall v | 0 <= v < |pages| ensures Stored(pages, va, [])[v] == pages[v] {
      assert Patch(pages[v].bytes, v * PGSIZE, va, []) == pages[v].bytes;
    }
  }

  /** Storing in two pieces is storing at once. */
  lemma StoredTwice(pages: seq<View>, va: int, d: seq<int>, d': seq<int>)
    ensures Stored(Stored(pages, va, d), va + |d|, d') == Stored(pages, va, d + d')
  {
    forall v | 0 <= v < |pages|
      ensures Stored(Stored(pages, va, d), va + |d|, d')[v] == Stored(pages, va, d + d')[v]
    {
      var b, base := pages[v].bytes, v * PGSIZE;
      assert Patch(Patch(b, base, va, d), base, va + |d|, d') == Patch(b, base, va, d + d');
    }
  }

  // A store inside page v.
  lemma StoredInPage(pages: seq<View>, v: nat, off: nat, d: seq<int>)
    requires Full(pages) && v < |pages| && off + |d| <= PGSIZE
    ensures Stored(pages, v * PGSIZE + off, d) ==
      pages[v := pages[v].(bytes := pages[v].bytes[..off] + d + pages[v].bytes[off + |d|..])]
  {
    var va := v * PGSIZE + off;
    forall u | 0 <= u < |pages|
      ensures Stored(pages, va, d)[u].bytes ==
        if u == v then pages[v].bytes[..off] + d + pages[v].bytes[off + |d|..] else pages[u].bytes
    {
      assert u != v ==> Patch(pages[u].bytes, u * PGSIZE, va, d) == pages[u].bytes;
    }
  }

  /** A store at va is seen exactly there. */
  lemma StoredBytes(pages: seq<View>, va: nat, d: seq<int>, x: nat)
    requires Full(pages) && x / PGSIZE < |pages|
    ensures Full(Stored(pages, va, d))
    ensures ByteAt(Stored(pages, va, d), x) == if va <= x < va + |d| then d[x - va] else ByteAt(pages, x)
    ensures Stored(pages, va, d)[x / PGSIZE] == pages[x / PGSIZE].(bytes := Stored(pages, va, d)[x / PGSIZE].bytes)
  {
  }

  lemma StorableKept(m: Mem, va: int, d: seq<int>, x: nat)
    ensures Storable(m.(pages := Stored(m.pages, va, d)), x) == Storable(m, x)
  {
  }

  // What the operations of one run are, and how each went.
  datatype Op = Spawn | Fork(p: nat) | Grow(p: nat, n: int) | Store(p: nat, va: nat, b: int)
    | CopyOut(p: nat, va: nat, data: seq<int>) | CopyIn(p: nat, va: nat, len: nat) | Free(p: nat)

  datatype Outcome = Outcome(ok: bool, child: nat, wrote: nat, got: seq<int>)

  // growproc's new size; the sum is computed modulo 2^64 and a size that grew by wrapping is ignored.
  function NewSize(sz: nat, n: int): nat {
    if n < 0 && sz + n < 0 then sz else sz + n
  }

  /** One operation of the eager machine. */
  function Act(m: Machine, op: Op, out: Outcome): Machine {
    match op
    case Spawn => if out.ok then m[out.child := Mem([], 0)] else m
    case Fork(p) => if out.ok && p in m then m[out.child := m[p]] else m
    case Grow(p, n) => if out.ok && p in m then m[p := Resized(m[p], NewSize(m[p].sz, n))] else m
    case Store(p, va, b) => if out.ok && p in m then m[p := m[p].(pages := Stored(m[p].pages, va, [b]))] else m
    case CopyOut(p, va, data) =>
      if out.wrote <= |data| && p in m then m[p := m[p].(pages := Stored(m[p].pages, va, data[..out.wrote]))] else m
    case CopyIn(p, va, len) => m
    case Free(p) => m - {p}
  }

  // Every byte of the range may be stored.
  ghost predicate AllStorable(m: Mem, va: nat, n: nat) { forall x :: va <= x < va + n ==> Storable(m, x) }

  lemma StorableNone(m: Mem, va: nat)
    ensures AllStorable(m, va, 0)
  {
  }

  lemma StorableMore(m: Mem, va: nat, n: nat, k: nat)
    requires AllStorable(m, va, n) && Storable(m, va + n) && (va + n) % PGSIZE + k <= PGSIZE
    ensures AllStorable(m, va, n + k)
  {
    forall x | va + n <= x < va + n + k ensures Storable(m, x) {
      assert x / PGSIZE == (va + n) / PGSIZE;
    }
  }

  /** What an outcome may be, given the address spaces alone. */
  ghost predicate Honest(m: Machine, op: Op, out: Outcome) {
    match op
    case Spawn => out.ok ==> out.child !in m
    case Fork(p) => out.ok ==> p in m && out.child !in m
    case Grow(p, n) => out.ok ==> p in m
    case Store(p, va, b) => out.ok ==> p in m && Storable(m[p], va)
    case CopyOut(p, va, data) => if p !in m then !out.ok else
      && out.wrote <= |data| && (out.ok <==> out.wrote == |data|)
      && AllStorable(m[p], va, out.wrote)
    case CopyIn(p, va, len) => if p !in m then !out.ok && out.got == [] else
      Got(m[p], va, out.got) && |out.got| <= len && if out.ok then |out.got| == len else !Readable(m[p], va + |out.got|)
    case Free(p) => out.ok <==> p in m
  }

  function Run(m: Machine, ops: seq<Op>, outs: seq<Outcome>): Machine
    requires |ops| == |outs|
  {
    if ops == [] then m else Act(Run(m, ops[..|ops| - 1], outs[..|ops| - 1]), ops[|ops| - 1], outs[|ops| - 1])
  }

  ghost predicate AllWell(m: Machine) { forall p :: p in m ==> Well(m[p]) }

  lemma ActWell(m: Machine, op: Op, out: Outcome)
    requires AllWell(m)
    ensures AllWell(Act(m, op, out))
  {
    if op.Grow? && op.p in m { ResizedSeen(m[op.p], NewSize(m[op.p].sz, op.n), 0); }
  }

  lemma {:induction false} RunWell(m: Machine, ops: seq<Op>, outs: seq<Outcome>)
    requires AllWell(m) && |ops| == |outs|
    ensures AllWell(Run(m, ops, outs))
  {
    hide Act, AllWell;
    if ops != [] {
      var n := |ops| - 1;
      RunWell(m, ops[..n], outs[..n]);
      ActWell(Run(m, ops[..n], outs[..n]), ops[n], outs[n]);
    }
  }

  /** A growth in the middle of a run, seen at any address: the size changes by n, or stays if it would fall
      below 0, and no other process is affected. */
  lemma GrowthSeen(m: Machine, ops: seq<Op>, outs: seq<Outcome>, p: nat, n: int, out: Outcome, x: nat)
    requires AllWell(m) && |ops| == |outs| && out.ok && p in Run(m, ops, outs)
    ensures var before, after := Run(m, ops, outs), Run(m, ops + [Grow(p, n)], outs + [out]);
      && p in after && after == before[p := after[p]]
      && after[p].sz == (if before[p].sz + n < 0 then before[p].sz else before[p].sz + n)
      && SeenAt(before[p], after[p], after[p].sz, x)
  {
    RunWell(m, ops, outs);
    var before := Run(m, ops, outs);
    assert (ops + [Grow(p, n)])[..|ops|] == ops && (outs + [out])[..|ops|] == outs;
    ResizedSeen(before[p], NewSize(before[p].sz, n), x);
    hide SeenAt, Resized;
  }
}
