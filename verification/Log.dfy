/** The log of kernel/log.c running on the buffer cache.  Panics are outcomes:
    a method that returns false has hit one. */
module Log {
  import opened Options
  import opened Bio
  import opened CrashSafety
  import R = Reservation
  import opened Sets

  const DEV: nat := 1

  // Every valid buffer shows the block's logical contents.
  ghost predicate Coherent(bufs: seq<Buf>, mem: Disk) {
    forall i :: 0 <= i < |bufs| && bufs[i].dev == DEV && bufs[i].valid && bufs[i].blockno < |mem| ==>
      bufs[i].data == mem[bufs[i].blockno]
  }

  // Nobody gained or lost a reference, and a referenced buffer was not reassigned.
  ghost predicate SameRefs(o: seq<Buf>, n: seq<Buf>) {
    |o| == |n| && forall i :: 0 <= i < |o| ==>
      && n[i].refcnt == o[i].refcnt
      && (o[i].refcnt > 0 ==> n[i].Holds(o[i].dev, o[i].blockno) && n[i].valid == o[i].valid)
  }

  // pins[k] is the buffer that log_write pinned for the k-th block of the header.
  ghost predicate Pinned(bufs: seq<Buf>, lh: seq<int>, pins: seq<nat>, from: nat) {
    |lh| == |pins| && forall k :: from <= k < |lh| ==>
      pins[k] < |bufs| && lh[k] >= 0 && bufs[pins[k]].Holds(DEV, lh[k]) && bufs[pins[k]].valid
        && bufs[pins[k]].refcnt > 0
  }

  ghost predicate DistinctPins(pins: seq<nat>) {
    forall i, j :: 0 <= i < j < |pins| ==> pins[i] != pins[j]
  }

  ghost predicate HasFree(bufs: seq<Buf>) {
    exists i :: 0 <= i < |bufs| && bufs[i].refcnt == 0
  }

  ghost predicate NoneHeld(bufs: seq<Buf>) {
    forall i :: 0 <= i < |bufs| ==> bufs[i].refcnt == 0
  }

  // Only commit and recovery touch the log area, and they let go of it.
  ghost predicate LogUnheld(bufs: seq<Buf>, l: Layout) {
    forall i :: 0 <= i < |bufs| && bufs[i].dev == DEV && l.InLog(bufs[i].blockno) ==> bufs[i].refcnt == 0
  }

  // What holds of the cache, the disk and the logical contents at every step, commits included.
  ghost predicate Consistent(l: Layout, bufs: seq<Buf>, disk: Disk, mem: Disk, lh: seq<int>) {
    && l.Loggable(lh, disk)
    && |mem| == |disk|
    && (forall b :: 0 <= b < |mem| && b !in lh ==> mem[b] == disk[b])
    && Coherent(bufs, mem)
    && LogUnheld(bufs, l)
  }

  // write_log has put m's version of the first tail blocks of lh into the log.
  ghost predicate Filled(l: Layout, d: Disk, mem: Disk, m: Disk, h: Block, lh: seq<int>, tail: nat) {
    && SameHome(l, mem, m) && l.Loggable(lh, d) && l.Loggable(lh, m) && tail <= |lh| && d[l.start] == h
    && forall i :: 0 <= i < tail ==> d[l.start + 1 + i] == m[lh[i]]
  }

  lemma FilledNext(l: Layout, d: Disk, u: Disk, m: Disk, h: Block, lh: seq<int>, tail: nat)
    requires Filled(l, d, u, m, h, lh, tail) && tail < |lh| && |d| == |u|
    ensures var x := m[lh[tail]]; var b := l.start + 1 + tail;
      u[lh[tail]] == x && Filled(l, d[b := x], u[b := x], m, h, lh, tail + 1)
  {
  }

  // The buffers once f has been copied to `to`, unpinned in a commit, and both have been released.
  function CopiedOver(n: seq<Buf>, from: nat, to: nat, unpin: bool): seq<Buf>
    requires from < |n| && to < |n| && from != to && n[from].refcnt > 0 && n[to].refcnt > if unpin then 1 else 0
  {
    n[from := n[from].(refcnt := n[from].refcnt - 1)]
     [to := n[to].(data := n[from].data, refcnt := n[to].refcnt - if unpin then 2 else 1)]
  }

  // How many of the first k pins are on buffer i.
  ghost function Pins(pins: seq<nat>, k: nat, i: nat): nat
    requires k <= |pins|
  {
    if k == 0 then 0 else Pins(pins, k - 1, i) + if pins[k - 1] == i then 1 else 0
  }

  // The first k pins have been dropped since o, and no other reference.
  ghost predicate Unpinned(o: seq<Buf>, n: seq<Buf>, pins: seq<nat>, k: nat) {
    |o| == |n| && k <= |pins| && forall i :: 0 <= i < |o| ==> n[i].refcnt + Pins(pins, k, i) == o[i].refcnt
  }

  // Writing a block of the log area through a free buffer.
  lemma LogAreaWrite(l: Layout, o: seq<Buf>, t: nat, b: nat, x: Block, disk: Disk, mem: Disk, lh: seq<int>)
    requires Consistent(l, o, disk, mem, lh) && l.InLog(b) && t < |o| && o[t].refcnt == 0
    requires Unique(o[t := Buf(DEV, b, true, 0, x)]) && (b == l.start ==> |x.words| == BLOCK_WORDS)
    ensures var n := o[t := Buf(DEV, b, true, 0, x)];
            Consistent(l, n, disk[b := x], mem[b := x], lh) && SameRefs(o, n)
  {
    var n := o[t := Buf(DEV, b, true, 0, x)];
    forall j | 0 <= j < |n| && n[j].dev == DEV && n[j].valid && n[j].blockno < |mem|
      ensures n[j].data == mem[b := x][n[j].blockno]
    {
      if n[j].blockno == b { assert n[t].Holds(n[j].dev, n[j].blockno); }
    }
  }

  // Writing a home block the header names: t is the buffer of the log block c, f of the home block b.
  lemma HomeWrite(l: Layout, o: seq<Buf>, t: nat, f: nat, c: nat, b: nat, r: nat, disk: Disk, mem: Disk, lh: seq<int>)
    requires Consistent(l, o, disk, mem, lh) && l.InLog(c) && 0 <= b < |disk| && b in lh
    requires t < |o| && f < |o| && t != f
    requires Unique(o[t := Buf(DEV, c, true, 0, mem[c])][f := Buf(DEV, b, true, r, mem[c])])
    ensures var n := o[t := Buf(DEV, c, true, 0, mem[c])][f := Buf(DEV, b, true, r, mem[c])];
            Consistent(l, n, disk[b := mem[c]], mem[b := mem[c]], lh)
  {
    var n := o[t := Buf(DEV, c, true, 0, mem[c])][f := Buf(DEV, b, true, r, mem[c])];
    forall j | 0 <= j < |n| && n[j].dev == DEV && n[j].valid && n[j].blockno < |mem|
      ensures n[j].data == mem[b := mem[c]][n[j].blockno]
    {
      if n[j].blockno == b { assert n[f].Holds(n[j].dev, n[j].blockno); }
    }
  }

  // The first k blocks of lh have been moved home since the disk was d.
  ghost predicate Moved(l: Layout, d: Disk, disk: Disk, mem: Disk, lh: seq<int>, k: nat) {
    && l.Loggable(lh, d) && |disk| == |mem| == |d| && k <= |lh|
    && (forall b :: 0 <= b < |d| && b !in lh ==> disk[b] == d[b])
    && (forall j :: 0 <= j < k ==> mem[lh[j]] == disk[lh[j]] == d[l.start + 1 + j])
  }

  // The log area of d holds m's version of each block of lh.
  ghost predicate LogHolds(l: Layout, d: Disk, m: Disk, lh: seq<int>) {
    l.Loggable(lh, d) && |m| == |d| && forall i :: 0 <= i < |lh| ==> d[l.start + 1 + i] == m[lh[i]]
  }

  lemma LogHoldsAt(l: Layout, d: Disk, m: Disk, lh: seq<int>, k: nat)
    requires LogHolds(l, d, m, lh) && k < |lh|
    ensures l.Loggable(lh, d) && |m| == |d| && m[lh[k] := d[l.start + 1 + k]] == m
  {}

  lemma PinnedSize(bufs: seq<Buf>, lh: seq<int>, pins: seq<nat>, k: nat)
    requires Pinned(bufs, lh, pins, k)
    ensures |pins| == |lh|
  {}

  lemma MoveOne(l: Layout, d: Disk, disk: Disk, mem: Disk, lh: seq<int>, k: nat)
    requires Moved(l, d, disk, mem, lh, k) && k < |lh|
    ensures var x := d[l.start + 1 + k];
            disk[l.start + 1 + k] == x && Moved(l, d, disk[lh[k] := x], mem[lh[k] := x], lh, k + 1)
  {
    assert l.start + 1 + k !in lh by { assert l.InLog(l.start + 1 + k); }
    assert lh[k] in lh;
  }

  lemma MovedAll(l: Layout, d: Disk, disk: Disk, mem: Disk, lh: seq<int>, bufs: seq<Buf>)
    requires Moved(l, d, disk, mem, lh, |lh|) && Consistent(l, bufs, disk, mem, lh)
    ensures mem == disk && Consistent(l, bufs, disk, mem, []) && l.Loggable(lh, disk) && disk[l.start] == d[l.start]
  {
    assert l.InLog(l.start);
  }

  // A recovery that has installed everything and cleared the header has reached Recovered.
  lemma RecoveryEnds(l: Layout, d: Disk, e: Disk)
    requires WellFormed(l, d) && Moved(l, d, e, e, Header(d[l.start]), |Header(d[l.start])|) && e[l.start] == d[l.start]
    ensures var r := e[l.start := WithHeader(e[l.start], [])];
            r == Recovered(l, d) && WellFormed(l, r) && Header(r[l.start]) == []
  {
    var r := e[l.start := WithHeader(e[l.start], [])];
    assert l.InLog(l.start);
    RecoveredIs(l, d, r);
    RecoveredIsEmpty(l, d);
  }

  lemma ColdRefill(o: seq<Buf>, t: nat, b: nat, d: Disk)
    requires NoneHeld(o) && Coherent(o, d) && t < |o| && b < |d|
    ensures NoneHeld(o[t := Buf(DEV, b, true, 0, d[b])]) && Coherent(o[t := Buf(DEV, b, true, 0, d[b])], d)
  {}

  // A cold cache over a disk with any well-formed log.
  lemma ConsistentCold(l: Layout, bufs: seq<Buf>, d: Disk)
    requires WellFormed(l, d) && NoneHeld(bufs) && Coherent(bufs, d)
    ensures Consistent(l, bufs, d, d, Header(d[l.start]))
  {}

  lemma SameRefsKept(o: seq<Buf>, n: seq<Buf>, n': seq<Buf>, lh: seq<int>, pins: seq<nat>)
    requires SameRefs(o, n) && SameRefs(n, n') && Pinned(o, lh, pins, 0)
    ensures SameRefs(o, n') && Pinned(n', lh, pins, 0)
  {}

  // Letting go of a buffer whose pin, if it has one, is another reference.
  lemma PinsOutlive(o: seq<Buf>, t: nat, lh: seq<int>, pins: seq<nat>)
    requires Pinned(o, lh, pins, 0) && t < |o| && o[t].refcnt > 0 && (o[t].blockno in lh ==> o[t].refcnt > 1)
    ensures Pinned(o[t := o[t].(refcnt := o[t].refcnt - 1)], lh, pins, 0)
  {}

  // The buffer holding a logged block is pinned.
  lemma LoggedIsPinned(o: seq<Buf>, t: nat, b: nat, lh: seq<int>, pins: seq<nat>)
    requires Pinned(o, lh, pins, 0) && Unique(o) && b in lh
    ensures Cached(o, DEV, b)
    ensures t < |o| && o[t].Holds(DEV, b) ==> o[t].refcnt > 0
  {
    var k :| 0 <= k < |lh| && lh[k] == b;
    assert o[pins[k]].Holds(DEV, b);
  }

  lemma SameRefsTrans(o: seq<Buf>, n: seq<Buf>, n': seq<Buf>)
    requires SameRefs(o, n) && SameRefs(n, n')
    ensures SameRefs(o, n')
  {}

  lemma SameRefsCold(o: seq<Buf>, n: seq<Buf>)
    requires SameRefs(o, n) && NoneHeld(o)
    ensures NoneHeld(n)
  {}

  lemma SameRefsFree(o: seq<Buf>, n: seq<Buf>)
    requires SameRefs(o, n)
    ensures HasFree(o) <==> HasFree(n)
  {
    if HasFree(o) {
      var i :| 0 <= i < |o| && o[i].refcnt == 0;
      assert n[i].refcnt == 0;
    }
    if HasFree(n) {
      var i :| 0 <= i < |n| && n[i].refcnt == 0;
      assert o[i].refcnt == 0;
    }
  }

  lemma PinsDistinct(bufs: seq<Buf>, lh: seq<int>, pins: seq<nat>)
    requires Pinned(bufs, lh, pins, 0) && forall i, j :: 0 <= i < j < |lh| ==> lh[i] != lh[j]
    ensures DistinctPins(pins)
  {}

  lemma UnpinOne(o: seq<Buf>, n: seq<Buf>, n': seq<Buf>, lh: seq<int>, pins: seq<nat>, k: nat)
    requires Pinned(n, lh, pins, k) && Unpinned(o, n, pins, k) && k < |pins|
    requires DistinctPins(pins)
    requires SameRefs(n[pins[k] := n[pins[k]].(refcnt := n[pins[k]].refcnt - 1)], n')
    ensures Pinned(n', lh, pins, k + 1) && Unpinned(o, n', pins, k + 1)
  {
    forall j | k + 1 <= j < |lh| ensures n'[pins[j]].Holds(DEV, lh[j]) && n'[pins[j]].valid && n'[pins[j]].refcnt > 0 {
      assert pins[k] != pins[j];
    }
  }

  lemma UnpinnedSame(o: seq<Buf>, n: seq<Buf>, n': seq<Buf>, pins: seq<nat>)
    requires Unpinned(o, n, pins, |pins|) && SameRefs(n, n')
    ensures Unpinned(o, n', pins, |pins|)
  {}

  lemma UnpinnedSince(o: seq<Buf>, n: seq<Buf>, n': seq<Buf>, pins: seq<nat>)
    requires SameRefs(o, n) && Unpinned(n, n', pins, |pins|)
    ensures Unpinned(o, n', pins, |pins|)
  {}

  lemma UnpinnedFree(o: seq<Buf>, n: seq<Buf>, pins: seq<nat>, k: nat)
    requires Unpinned(o, n, pins, k) && HasFree(o)
    ensures HasFree(n)
  {
    var i :| 0 <= i < |o| && o[i].refcnt == 0;
    assert n[i].refcnt == 0;
  }

  // The writes of a commit, joined from its four parts.
  lemma CommitWritesAre(l: Layout, d: Disk, m: Disk, c: Disk, blocks: seq<int>, w: seq<Write>)
    requires l.Loggable(blocks, d) && l.Loggable(blocks, m) && l.Loggable(blocks, c)
    requires c[l.start] == WithHeader(d[l.start], blocks) && LogHolds(l, c, m, blocks)
    ensures w + LogWrites(l, m, blocks, |blocks|) + [HeadWrite(l, d[l.start], blocks)]
            + InstallWrites(l, c, blocks, |blocks|) + [HeadWrite(l, c[l.start], [])] ==
              w + CommitWrites(l, d, m, blocks)
  {
    assert InstallWrites(l, c, blocks, |blocks|)
        == seq(|blocks|, i requires 0 <= i < |blocks| => Write(blocks[i], m[blocks[i]]));
  }

  // Writing the header leaves the logged blocks and the home blocks alone.
  lemma HeadKeepsLog(l: Layout, d: Disk, m: Disk, m1: Disk, lh: seq<int>, x: Block)
    requires LogHolds(l, d, m, lh) && SameHome(l, m1, m) && |x.words| == BLOCK_WORDS
    ensures LogHolds(l, d[l.start := x], m, lh) && LogHolds(l, d[l.start := x], m1[l.start := x], lh)
    ensures SameHome(l, m1[l.start := x], m) && l.Loggable(lh, d[l.start := x])
  {
    assert l.InLog(l.start);
  }

  lemma CommittedIsWellFormed(l: Layout, c: Disk, blocks: seq<int>)
    requires l.Loggable(blocks, c) && IsHeader(c[l.start]) && Header(c[l.start]) == blocks
    ensures WellFormed(l, c)
  {}

  lemma SameHomeRefl(l: Layout, a: Disk)
    ensures SameHome(l, a, a)
  {}

  lemma SameHomeTrans(l: Layout, a: Disk, b: Disk, c: Disk)
    requires SameHome(l, a, b) && SameHome(l, b, c)
    ensures SameHome(l, a, c)
  {}

  lemma InstallGrows(l: Layout, d: Disk, lh: seq<int>, k: nat, w: seq<Write>)
    requires l.Loggable(lh, d) && k < |lh|
    ensures w + InstallWrites(l, d, lh, k) + [Write(lh[k], d[l.start + 1 + k])] == w + InstallWrites(l, d, lh, k + 1)
  {
    WritesGrow(l, d, lh, k);
  }

  // Bringing a home block into the cache.
  lemma HomeRead(l: Layout, o: seq<Buf>, t: nat, b: nat, r: nat, disk: Disk, mem: Disk, lh: seq<int>, pins: seq<nat>)
    requires Consistent(l, o, disk, mem, lh) && Pinned(o, lh, pins, 0) && b < |disk| && !l.InLog(b) && t < |o| && r > 0
    requires o[t].Holds(DEV, b) || o[t].refcnt == 0
    ensures var n := o[t := Buf(DEV, b, true, r, mem[b])];
            Consistent(l, n, disk, mem, lh) && Pinned(n, lh, pins, 0)
  {}

  // A block that is not cached and valid is not in the header, so the disk has its contents.
  lemma UncachedIsOnDisk(l: Layout, o: seq<Buf>, b: nat, disk: Disk, mem: Disk, lh: seq<int>, pins: seq<nat>)
    requires Consistent(l, o, disk, mem, lh) && Pinned(o, lh, pins, 0) && b < |disk|
    requires forall i :: 0 <= i < |o| && o[i].Holds(DEV, b) ==> !o[i].valid
    ensures mem[b] == disk[b]
  {
    forall k | 0 <= k < |lh| ensures lh[k] != b {
      assert o[pins[k]].valid && o[pins[k]].blockno == lh[k];
    }
  }

  // Logging a held home block whose data is now x.
  lemma HomeLogged(l: Layout, o: seq<Buf>, t: nat, x: Block, disk: Disk, mem: Disk, lh: seq<int>, pins: seq<nat>)
    requires Consistent(l, o, disk, mem, lh) && Pinned(o, lh, pins, 0) && Unique(o) && t < |o|
    requires o[t].dev == DEV && o[t].valid && o[t].refcnt > 0 && o[t].blockno < |disk| && !l.InLog(o[t].blockno)
    requires |lh| < LOGSIZE && |lh| + 1 < l.size
    ensures var b := o[t].blockno;
            if b in lh then
              Consistent(l, o[t := o[t].(data := x)], disk, mem[b := x], lh)
                && Pinned(o[t := o[t].(data := x)], lh, pins, 0)
            else
              var n := o[t := o[t].(data := x, refcnt := o[t].refcnt + 1)];
              Consistent(l, n, disk, mem[b := x], lh + [b]) && Pinned(n, lh + [b], pins + [t], 0)
  {
    var b := o[t].blockno;
    var n := o[t := o[t].(data := x, refcnt := if b in lh then o[t].refcnt else o[t].refcnt + 1)];
    forall j | 0 <= j < |n| && n[j].dev == DEV && n[j].valid && n[j].blockno < |mem|
      ensures n[j].data == mem[b := x][n[j].blockno]
    {
      if n[j].blockno == b { assert o[t].Holds(o[j].dev, o[j].blockno); }
    }
  }

  lemma UniqueData(o: seq<Buf>, n: seq<Buf>)
    requires |o| == |n| && Unique(n) && forall i :: 0 <= i < |o| ==>
      n[i].dev == o[i].dev && n[i].blockno == o[i].blockno
    ensures Unique(o)
  {
    forall i, j | 0 <= i < |o| && 0 <= j < |o| && o[i].dev != 0 && o[j].Holds(o[i].dev, o[i].blockno) ensures i == j {
      assert n[j].Holds(n[i].dev, n[i].blockno);
    }
  }

  // Letting go of a buffer that is not the last reference to a pin.
  lemma HomeReleased(l: Layout, o: seq<Buf>, t: nat, disk: Disk, mem: Disk, lh: seq<int>, pins: seq<nat>)
    requires Consistent(l, o, disk, mem, lh) && t < |o| && o[t].refcnt > 0 && !l.InLog(o[t].blockno)
    requires Pinned(o[t := o[t].(refcnt := o[t].refcnt - 1)], lh, pins, 0)
    ensures Consistent(l, o[t := o[t].(refcnt := o[t].refcnt - 1)], disk, mem, lh)
  {}

  lemma Pigeonhole(pins: seq<nat>, n: nat, hole: nat)
    requires DistinctPins(pins) && hole < n && forall i :: 0 <= i < |pins| ==> pins[i] < n && pins[i] != hole
    ensures |pins| < n
  {
    var used := set x: int | x in pins;
    RangeIs(0, n);
    CountDistinct(pins);
    SubsetSize(used, Range(0, n) - {hole});
  }

  lemma {:induction false} CountDistinct(pins: seq<nat>)
    requires DistinctPins(pins)
    ensures |set x: int | x in pins| == |pins|
  {
    if pins != [] {
      var rest := pins[..|pins| - 1];
      CountDistinct(rest);
      assert pins == rest + [pins[|pins| - 1]];
      assert (set x: int | x in pins) == (set x: int | x in rest) + {pins[|pins| - 1]};
    }
  }

  /** LOGSIZE == NBUF: a transaction that fills the header, which takes a log of more than LOGSIZE
      blocks, pins every buffer, so its commit finds none for the log and fails. */
  lemma FullHeaderLeavesNoBuffer(bufs: seq<Buf>, lh: seq<int>, pins: seq<nat>)
    requires Pinned(bufs, lh, pins, 0) && |bufs| == NBUF && |lh| == LOGSIZE
    requires forall i, j :: 0 <= i < j < |lh| ==> lh[i] != lh[j]
    ensures !HasFree(bufs)
  {
    PinsDistinct(bufs, lh, pins);
    forall i | 0 <= i < |bufs| ensures bufs[i].refcnt > 0 {
      if bufs[i].refcnt == 0 {
        Pigeonhole(pins, NBUF, i);
        assert false;
      }
    }
  }

  // The pins are the only references: no call is in the middle of a block.
  ghost predicate Idle(bufs: seq<Buf>, pins: seq<nat>) {
    |bufs| == NBUF && forall i :: 0 <= i < |bufs| ==> bufs[i].refcnt == if i in pins then 1 else 0
  }

  /** Then whether a commit finds a buffer, and a read one, can be told from the header. */
  lemma FreeExactly(bufs: seq<Buf>, lh: seq<int>, pins: seq<nat>)
    requires Pinned(bufs, lh, pins, 0) && Idle(bufs, pins) && forall i, j :: 0 <= i < j < |lh| ==> lh[i] != lh[j]
    ensures |lh| <= NBUF && (HasFree(bufs) <==> |lh| < NBUF)
    ensures forall b: nat :: Cached(bufs, DEV, b) || HasFree(bufs) <==> |lh| < NBUF || b in lh
  {
    PinsDistinct(bufs, lh, pins);
    PinsFit(bufs, lh, pins);
    hide Pinned, Idle, Cached;
    if |lh| < NBUF {
      SomeFree(bufs, pins);
    } else {
      FullHeaderLeavesNoBuffer(bufs, lh, pins);
      hide HasFree;
      forall b: nat ensures Cached(bufs, DEV, b) <==> b in lh { CachedIsLogged(bufs, lh, pins, b); }
    }
  }

  lemma PinsFit(bufs: seq<Buf>, lh: seq<int>, pins: seq<nat>)
    requires Pinned(bufs, lh, pins, 0) && |bufs| == NBUF && DistinctPins(pins)
    ensures |pins| == |lh| <= NBUF
  {
    CountDistinct(pins);
    RangeIs(0, NBUF);
    SubsetSize((set x: int | x in pins), Range(0, NBUF));
  }

  lemma SomeFree(bufs: seq<Buf>, pins: seq<nat>)
    requires Idle(bufs, pins) && DistinctPins(pins) && |pins| < NBUF
    ensures HasFree(bufs)
  {
    var used := set x: int | x in pins;
    CountDistinct(pins);
    var i := Spare(used, NBUF);
    assert bufs[i].refcnt == 0;
  }

  lemma CachedIsLogged(bufs: seq<Buf>, lh: seq<int>, pins: seq<nat>, b: nat)
    requires Pinned(bufs, lh, pins, 0) && Idle(bufs, pins) && !HasFree(bufs)
    ensures Cached(bufs, DEV, b) <==> b in lh
  {
    if Cached(bufs, DEV, b) {
      var i :| 0 <= i < |bufs| && bufs[i].Holds(DEV, b);
      assert i in pins;
      var k :| 0 <= k < |pins| && pins[k] == i;
      assert lh[k] == b;
    }
    if b in lh {
      var k :| 0 <= k < |lh| && lh[k] == b;
      assert bufs[pins[k]].Holds(DEV, b);
    }
  }

  // A buffer was taken up, changed and let go.
  lemma IdleKept(o: seq<Buf>, n: seq<Buf>, pins: seq<nat>, r: nat)
    requires Idle(o, pins) && r < |o| == |n| && n == o[r := n[r]] && n[r].refcnt == o[r].refcnt
    ensures Idle(n, pins)
  {
  }

  // Or it was pinned as well.
  lemma IdlePinned(o: seq<Buf>, n: seq<Buf>, pins: seq<nat>, r: nat)
    requires Idle(o, pins) && r < |o| == |n| && r !in pins && n == o[r := n[r]] && n[r].refcnt == o[r].refcnt + 1
    ensures Idle(n, pins + [r])
  {
  }

  lemma NotPinned(o: seq<Buf>, lh: seq<int>, pins: seq<nat>, r: nat, b: nat)
    requires Pinned(o, lh, pins, 0) && r < |o| && b !in lh && (o[r].Holds(DEV, b) || o[r].refcnt == 0)
    ensures r !in pins
  {
  }

  lemma IdleUnpinned(o: seq<Buf>, n: seq<Buf>, pins: seq<nat>)
    requires Idle(o, pins) && Unpinned(o, n, pins, |pins|) && DistinctPins(pins)
    ensures Idle(n, [])
  {
    forall i | 0 <= i < |n| ensures n[i].refcnt == 0 {
      PinsOnce(pins, |pins|, i);
    }
  }

  lemma {:induction false} PinsOnce(pins: seq<nat>, k: nat, i: nat)
    requires k <= |pins| && DistinctPins(pins)
    ensures Pins(pins, k, i) == if i in pins[..k] then 1 else 0
  {
    if k > 0 {
      PinsOnce(pins, k - 1, i);
      assert pins[..k] == pins[..k - 1] + [pins[k - 1]];
    }
  }

  class Log {
    const bc: BufferCache
    const l: Layout
    var outstanding: nat
    var committing: bool
    var lh: seq<int>
    ghost var pins: seq<nat>
    ghost var mem: Disk        // the logical contents: for each block, what was last logged

    ghost predicate Base()
      reads this`lh, this`mem, bc
    {
      bc.Valid() && Consistent(l, bc.buf, bc.disk, mem, lh)
    }

    // Between commits the log on disk is empty and the header's blocks are cached and pinned.
    ghost predicate Valid()
      reads this`lh, this`pins, this`mem, bc
    {
      && Base()
      && WellFormed(l, bc.disk) && Header(bc.disk[l.start]) == []
      && Pinned(bc.buf, lh, pins, 0)
    }

    // initlog: a cold cache over whatever disk the last crash left.
    constructor (bc: BufferCache, l: Layout)
      requires bc.Valid() && WellFormed(l, bc.disk)
      requires NoneHeld(bc.buf) && Coherent(bc.buf, bc.disk)
      modifies bc
      ensures Valid() && this.bc == bc && this.l == l && lh == [] && mem == bc.disk
      ensures !committing && outstanding == 0 && NoneHeld(bc.buf)
      ensures bc.writes == old(bc.writes) + RecoveryWrites(l, old(bc.disk)) && bc.disk == Recovered(l, old(bc.disk))
    {
      this.bc, this.l := bc, l;
      outstanding, committing, lh, pins, mem := 0, false, [], [], bc.disk;
      new;
      RecoverFromLog();
    }

    // bread the log block at logged, then the block at home, which is pinned by p
    // or, in a recovery, found while nobody holds a buffer.
    method ReadBoth(logged: nat, home: nat, recovering: bool, ghost p: nat) returns (ok: bool, t: nat, f: nat)
      requires bc.Valid() && |mem| == |bc.disk| && logged < |mem| && home < |mem| && logged != home
      requires Coherent(bc.buf, mem) && mem[logged] == bc.disk[logged]
      requires forall i :: 0 <= i < NBUF && bc.buf[i].Holds(DEV, logged) ==> bc.buf[i].refcnt == 0
      requires !recovering ==> p < NBUF && bc.buf[p].Holds(DEV, home) && bc.buf[p].valid && bc.buf[p].refcnt > 0
      requires recovering ==> NoneHeld(bc.buf) && mem[home] == bc.disk[home]
      modifies bc`buf
      ensures bc.Valid()
      ensures ok <==> HasFree(old(bc.buf))
      ensures ok ==> (t < NBUF && f < NBUF && t != f && old(bc.buf)[t].refcnt == 0
                      && (!recovering ==> f == p)
                      && bc.buf == old(bc.buf)[t := Buf(DEV, logged, true, 1, mem[logged])]
                                              [f := Buf(DEV, home, true, old(bc.buf)[f].refcnt + 1, mem[home])])
    {
      ghost var o := bc.buf;
      t, f := 0, 0;
      var b := bc.Bread(DEV, logged);
      if b.None? { return false, 0, 0; }
      assert HasFree(o) by { assert o[b.value].refcnt == 0; }
      t := b.value;
      ghost var o1 := bc.buf;
      assert o1 == o[t := Buf(DEV, logged, true, 1, mem[logged])];
      assert !recovering ==> o1[p] == o[p];
      assert recovering ==> o1[if t == 0 then 1 else 0].refcnt == 0;
      var g := bc.Bread(DEV, home);
      f := g.value;
      ok := true;
    }

    // brelse of two buffers.
    method ReleaseBoth(first: nat, second: nat)
      requires bc.Valid() && first < NBUF && second < NBUF && first != second
      requires bc.buf[first].refcnt > 0 && bc.buf[second].refcnt > 0
      modifies bc`order, bc`stamp, bc`clock, bc`buf, bc`next, bc`prev
      ensures bc.Valid()
      ensures var o := old(bc.buf);
              bc.buf == o[first := o[first].(refcnt := o[first].refcnt - 1)]
                         [second := o[second].(refcnt := o[second].refcnt - 1)]
    {
      bc.Brelse(first);
      bc.Brelse(second);
    }

    // One round of write_log: the tail-th pinned block into the log.
    method LogOne(tail: nat) returns (ok: bool)
      requires Base() && tail < |lh| && Pinned(bc.buf, lh, pins, 0)
      modifies bc, this`mem
      ensures ok <==> HasFree(old(bc.buf))
      ensures ok ==> Base() && SameRefs(old(bc.buf), bc.buf)
      ensures ok ==> bc.disk == old(bc.disk)[l.start + 1 + tail := old(mem)[lh[tail]]]
      ensures ok ==> mem == old(mem)[l.start + 1 + tail := old(mem)[lh[tail]]]
      ensures ok ==> bc.writes == old(bc.writes) + [Write(l.start + 1 + tail, old(mem)[lh[tail]])]
      ensures !ok ==> bc.disk == old(bc.disk) && bc.writes == old(bc.writes)
    {
      ghost var o, m, d := bc.buf, mem, bc.disk;
      var to, from;
      ok, to, from := ReadBoth(l.start + tail + 1, lh[tail], false, pins[tail]);
      if ok {
        CopyOver(from, to, false);
        assert bc.buf == o[to := Buf(DEV, l.start + 1 + tail, true, 0, m[lh[tail]])];
        BufsUnique();
        hide Bio.BufferCache.Valid, HasFree, SameRefs, Unique;
        LogAreaWrite(l, o, to, l.start + 1 + tail, m[lh[tail]], d, m, lh);
        mem := mem[l.start + 1 + tail := m[lh[tail]]];
      }
    }

    // The buffer work of one round of install_trans.
    method CopyHome(logged: nat, home: nat, recovering: bool, ghost p: nat) returns (ok: bool, t: nat, f: nat)
      requires bc.Valid() && |mem| == |bc.disk| && logged < |mem| && home < |mem| && logged != home
      requires Coherent(bc.buf, mem) && mem[logged] == bc.disk[logged]
      requires forall i :: 0 <= i < NBUF && bc.buf[i].Holds(DEV, logged) ==> bc.buf[i].refcnt == 0
      requires !recovering ==> p < NBUF && bc.buf[p].Holds(DEV, home) && bc.buf[p].valid && bc.buf[p].refcnt > 0
      requires recovering ==> NoneHeld(bc.buf) && mem[home] == bc.disk[home]
      modifies bc
      ensures bc.Valid()
      ensures ok <==> HasFree(old(bc.buf))
      ensures ok ==> (t < NBUF && f < NBUF && t != f && old(bc.buf)[t].refcnt == 0 && (!recovering ==> f == p))
      ensures ok ==> var r: nat := if recovering then 0 else old(bc.buf)[p].refcnt - 1;
                     bc.buf == old(bc.buf)[t := Buf(DEV, logged, true, 0, mem[logged])]
                                          [f := Buf(DEV, home, true, r, mem[logged])]
      ensures ok ==> bc.disk == old(bc.disk)[home := mem[logged]]
      ensures ok ==> bc.writes == old(bc.writes) + [Write(home, mem[logged])]
    {
      assert |bc.buf| == NBUF;
      hide Bio.BufferCache.Valid, HasFree, NoneHeld, Coherent, Cached;
      ok, t, f := ReadBoth(logged, home, recovering, p);
      if ok {
        CopyOver(t, f, !recovering);
      }
    }

    // memmove, bwrite, bunpin if asked for, and two brelse.
    method CopyOver(from: nat, to: nat, unpin: bool)
      requires bc.Valid() && from < NBUF && to < NBUF && from != to && bc.buf[to].blockno < |bc.disk|
      requires bc.buf[from].refcnt > 0 && bc.buf[to].refcnt > if unpin then 1 else 0
      modifies bc
      ensures bc.Valid() && bc.buf == CopiedOver(old(bc.buf), from, to, unpin)
      ensures var o := old(bc.buf);
              && bc.disk == old(bc.disk)[o[to].blockno := o[from].data]
              && bc.writes == old(bc.writes) + [Write(o[to].blockno, o[from].data)]
    {
      assert |bc.buf| == NBUF;
      hide Bio.BufferCache.Valid;
      bc.Fill(to, bc.buf[from].data);
      bc.Bwrite(to);
      if unpin {
        bc.Bunpin(to);
      }
      ReleaseBoth(from, to);
    }

    // One round of install_trans: the tail-th log block to its home.
    method InstallOne(tail: nat, recovering: bool) returns (ok: bool)
      requires Base() && tail < |lh|
      requires recovering ==> NoneHeld(bc.buf) && mem == bc.disk
      requires !recovering ==> Pinned(bc.buf, lh, pins, tail)
      modifies bc, this`mem
      ensures ok <==> HasFree(old(bc.buf))
      ensures ok ==> Base()
      ensures ok && recovering ==> NoneHeld(bc.buf)
      ensures ok && !recovering ==>
                var o := old(bc.buf);
                SameRefs(o[pins[tail] := o[pins[tail]].(refcnt := o[pins[tail]].refcnt - 1)], bc.buf)
      ensures ok ==> bc.disk == old(bc.disk)[lh[tail] := old(bc.disk)[l.start + 1 + tail]]
      ensures ok ==> mem == old(mem)[lh[tail] := old(bc.disk)[l.start + 1 + tail]]
      ensures ok ==> bc.writes == old(bc.writes) + [Write(lh[tail], old(bc.disk)[l.start + 1 + tail])]
    {
      ghost var o, m, d := bc.buf, mem, bc.disk;
      ghost var p := if recovering then 0 else pins[tail];
      var t, f;
      ok, t, f := CopyHome(l.start + tail + 1, lh[tail], recovering, p);
      if ok {
        ghost var r: nat := if recovering then 0 else o[p].refcnt - 1;
        HomeWrite(l, o, t, f, l.start + 1 + tail, lh[tail], r, d, m, lh);
        mem := mem[lh[tail] := d[l.start + 1 + tail]];
      }
    }

    // write_head's loop: n and the first n entries.
    method FillHeader(h: Block) returns (hb: Block)
      requires |lh| <= LOGSIZE && |h.words| == BLOCK_WORDS
      ensures hb == WithHeader(h, lh)
    {
      var w := h.words[0 := |lh|];
      var i := 0;
      while i < |lh|
        invariant 0 <= i <= |lh|
        invariant w == [|lh|] + lh[..i] + h.words[i + 1..]
      {
        w := w[1 + i := lh[i]];
        i := i + 1;
      }
      assert lh[..i] == lh;
      hb := Block(w);
    }

    // One disk write, of the old header block with lh laid over it; fails only without a free buffer.
    method WriteHead() returns (ok: bool)
      requires Base()
      modifies bc, this`mem
      ensures ok <==> HasFree(old(bc.buf))
      ensures ok ==> Base() && SameRefs(old(bc.buf), bc.buf)
      ensures ok ==> bc.disk == old(bc.disk)[l.start := WithHeader(old(bc.disk)[l.start], lh)]
      ensures ok ==> mem == old(mem)[l.start := bc.disk[l.start]]
      ensures ok ==> bc.writes == old(bc.writes) + [HeadWrite(l, old(bc.disk)[l.start], lh)]
    {
      ghost var o, d, x := bc.buf, bc.disk, WithHeader(bc.disk[l.start], lh);
      var b := ReadHeader();
      if b.None? { return false; }
      var hb := FillHeader(bc.buf[b.value].data);
      Overwrite(b.value, hb);
      assert bc.buf == o[b.value := Buf(DEV, l.start, true, 0, x)];
      BufsUnique();
      hide Bio.BufferCache.Valid, HasFree, SameRefs, Unique, WithHeader;
      LogAreaWrite(l, o, b.value, l.start, x, d, mem, lh);
      mem := mem[l.start := x];
      ok := true;
    }

    // bread of the header finds it unheld, and as it is on disk.
    method ReadHeader() returns (r: Option<nat>)
      requires Base()
      modifies bc`buf
      ensures bc.Valid() && (r.Some? <==> HasFree(old(bc.buf)))
      ensures r.Some? ==> r.value < NBUF && old(bc.buf)[r.value].refcnt == 0
      ensures r.Some? ==> bc.buf == old(bc.buf)[r.value := Buf(DEV, l.start, true, 1, bc.disk[l.start])]
    {
      ghost var o := bc.buf;
      r := bc.Bread(DEV, l.start);
      if r.Some? { assert o[r.value].refcnt == 0; }
    }

    // Fill, bwrite and brelse.
    method Overwrite(t: nat, x: Block)
      requires bc.Valid() && t < NBUF && bc.buf[t].refcnt > 0 && bc.buf[t].blockno < |bc.disk|
      modifies bc
      ensures bc.Valid()
      ensures var o := old(bc.buf)[t];
              && bc.buf == old(bc.buf)[t := o.(data := x, refcnt := o.refcnt - 1)]
              && bc.disk == old(bc.disk)[o.blockno := x]
              && bc.writes == old(bc.writes) + [Write(o.blockno, x)]
    {
      assert |bc.buf| == NBUF;
      hide Bio.BufferCache.Valid;
      bc.Fill(t, x);
      bc.Bwrite(t);
      bc.Brelse(t);
    }

    lemma BufsUnique()
      requires bc.Valid()
      ensures Unique(bc.buf)
    {}

    // How far write_log has got, tail blocks into the log, since logical contents m and header block h.
    ghost predicate Logging(m: Disk, h: Block, w: seq<Write>, tail: nat)
      reads this, bc
    {
      && Base() && Pinned(bc.buf, lh, pins, 0) && tail <= |lh|
      && l.Loggable(lh, m) && Filled(l, bc.disk, mem, m, h, lh, tail)
      && bc.writes == w + LogWrites(l, m, lh, tail)
    }

    lemma LoggingStart()
      requires Base() && Pinned(bc.buf, lh, pins, 0)
      ensures l.start < |bc.disk| && Logging(mem, bc.disk[l.start], bc.writes, 0) && SameRefs(bc.buf, bc.buf)
    {
      hide Bio.BufferCache.Valid;
    }

    method LogStep(tail: nat, ghost m: Disk, ghost h: Block, ghost w: seq<Write>) returns (ok: bool)
      requires Logging(m, h, w, tail) && tail < |lh|
      modifies bc, this`mem
      ensures ok <==> HasFree(old(bc.buf))
      ensures ok ==> Logging(m, h, w, tail + 1) && SameRefs(old(bc.buf), bc.buf)
      ensures !ok ==> bc.disk == old(bc.disk) && bc.writes == old(bc.writes)
    {
      WritesGrow(l, m, lh, tail);
      ghost var n, d, u := bc.buf, bc.disk, mem;
      FilledNext(l, d, u, m, h, lh, tail);
      hide Bio.BufferCache.Valid, HasFree, SameRefs, Consistent, Pinned, SameHome, Filled, LogWrites;
      ok := LogOne(tail);
      if ok {
        SameRefsKept(n, n, bc.buf, lh, pins);
        assert bc.writes == w + (LogWrites(l, m, lh, tail) + [Write(l.start + 1 + tail, m[lh[tail]])]);
      }
    }

    // Block k of lh goes to log block k, in order, and no home block is written.
    method WriteLog() returns (ok: bool)
      requires Base() && Pinned(bc.buf, lh, pins, 0)
      modifies bc, this`mem
      ensures ok <==> lh == [] || HasFree(old(bc.buf))
      ensures ok ==> Logging(old(mem), old(bc.disk)[l.start], old(bc.writes), |lh|) && SameRefs(old(bc.buf), bc.buf)
      ensures !ok ==> bc.disk == old(bc.disk) && bc.writes == old(bc.writes)
    {
      hide Log.Logging, SameRefs, Bio.BufferCache.Valid, Consistent, HasFree, Pinned;
      LoggingStart();
      ghost var h, m, w, o := bc.disk[l.start], mem, bc.writes, bc.buf;
      var tail := 0;
      while tail < |lh|
        invariant 0 <= tail <= |lh|
        invariant Logging(m, h, w, tail) && SameRefs(o, bc.buf)
        invariant if tail == 0 then bc.disk == old(bc.disk) && bc.writes == w else HasFree(o)
      {
        ghost var n := bc.buf;
        SameRefsFree(o, n);
        var more := LogStep(tail, m, h, w);
        if !more { return false; }
        SameRefsTrans(o, n, bc.buf);
        tail := tail + 1;
      }
      ok := true;
    }

    // How far install_trans has got in a recovery since disk d.
    ghost predicate Recovering(d: Disk, w: seq<Write>, tail: nat)
      reads this, bc
    {
      && Base() && Moved(l, d, bc.disk, mem, lh, tail) && mem == bc.disk && NoneHeld(bc.buf)
      && bc.writes == w + InstallWrites(l, d, lh, tail)
    }

    // How far it has got in a commit since disk d, logical contents m and buffers o.
    ghost predicate Installing(d: Disk, m: Disk, w: seq<Write>, o: seq<Buf>, tail: nat)
      reads this, bc
    {
      && Base() && Moved(l, d, bc.disk, mem, lh, tail) && mem == m && LogHolds(l, d, m, lh)
      && Pinned(bc.buf, lh, pins, tail) && Unpinned(o, bc.buf, pins, tail) && DistinctPins(pins)
      && bc.writes == w + InstallWrites(l, d, lh, tail)
    }

    lemma RecoverStart()
      requires Base() && NoneHeld(bc.buf) && mem == bc.disk
      ensures Recovering(bc.disk, bc.writes, 0)
    {}

    lemma InstallStart()
      requires Base() && Pinned(bc.buf, lh, pins, 0) && LogHolds(l, bc.disk, mem, lh)
      ensures Installing(bc.disk, mem, bc.writes, bc.buf, 0)
    {
      PinsDistinct(bc.buf, lh, pins);
    }

    lemma InstallingFree(d: Disk, m: Disk, w: seq<Write>, o: seq<Buf>, tail: nat)
      requires Installing(d, m, w, o, tail) && HasFree(o)
      ensures HasFree(bc.buf)
    {
      UnpinnedFree(o, bc.buf, pins, tail);
    }

    method RecoverStep(ghost d: Disk, ghost w: seq<Write>, tail: nat) returns (ok: bool)
      requires Recovering(d, w, tail) && tail < |lh|
      modifies bc, this`mem
      ensures ok && Recovering(d, w, tail + 1)
    {
      assert l.Loggable(lh, d);
      ColdHasFree();
      hide Bio.BufferCache.Valid, Consistent, HasFree, NoneHeld, SameRefs, Moved, InstallWrites;
      MoveOne(l, d, bc.disk, mem, lh, tail);
      ok := InstallOne(tail, true);
      InstallGrows(l, d, lh, tail, w);
    }

    method InstallStep(ghost d: Disk, ghost m: Disk, ghost w: seq<Write>, ghost o: seq<Buf>, tail: nat)
        returns (ok: bool)
      requires Installing(d, m, w, o, tail) && tail < |lh|
      modifies bc, this`mem
      ensures ok <==> HasFree(old(bc.buf))
      ensures ok ==> Installing(d, m, w, o, tail + 1)
    {
      hide Bio.BufferCache.Valid, Consistent, HasFree, Pinned, Unpinned, SameRefs, DistinctPins, Moved, InstallWrites,
          LogHolds;
      LogHoldsAt(l, d, m, lh, tail);
      PinnedSize(bc.buf, lh, pins, tail);
      ghost var n := bc.buf;
      MoveOne(l, d, bc.disk, mem, lh, tail);
      ok := InstallOne(tail, false);
      if ok {
        InstallGrows(l, d, lh, tail, w);
        UnpinOne(o, n, bc.buf, lh, pins, tail);
      }
    }

    // A recovery needs no pin and cannot fail; a commit drops one pin per block.
    method InstallTrans(recovering: bool) returns (ok: bool)
      requires Base()
      requires recovering ==> NoneHeld(bc.buf) && mem == bc.disk
      requires !recovering ==> Pinned(bc.buf, lh, pins, 0) && LogHolds(l, bc.disk, mem, lh)
      modifies bc, this`mem
      ensures recovering ==> ok && Recovering(old(bc.disk), old(bc.writes), |lh|)
      ensures !recovering ==> (ok <==> lh == [] || HasFree(old(bc.buf)))
      ensures !recovering && ok ==> Installing(old(bc.disk), old(mem), old(bc.writes), old(bc.buf), |lh|)
    {
      ghost var d, m, w, o := bc.disk, mem, bc.writes, bc.buf;
      ProgressStart(recovering);
      hide Log.Progress, Log.Base, HasFree, NoneHeld, Pinned, LogHolds;
      var tail := 0;
      while tail < |lh|
        invariant 0 <= tail <= |lh| && Progress(recovering, d, m, w, o, tail)
      {
        ok := InstallRound(recovering, d, m, w, o, tail);
        if !ok { return; }
        tail := tail + 1;
      }
      ProgressDone(recovering, d, m, w, o);
      ok := true;
    }

    // How far install_trans has got, in a recovery or in a commit.
    ghost predicate Progress(recovering: bool, d: Disk, m: Disk, w: seq<Write>, o: seq<Buf>, tail: nat)
      reads this, bc
    {
      if recovering then Recovering(d, w, tail)
      else Installing(d, m, w, o, tail) && if tail == 0 then bc.buf == o else HasFree(o)
    }

    lemma ProgressStart(recovering: bool)
      requires Base()
      requires recovering ==> NoneHeld(bc.buf) && mem == bc.disk
      requires !recovering ==> Pinned(bc.buf, lh, pins, 0) && LogHolds(l, bc.disk, mem, lh)
      ensures Progress(recovering, bc.disk, mem, bc.writes, bc.buf, 0)
    {
      hide Log.Installing, Log.Recovering, Log.Base, NoneHeld, Pinned, LogHolds;
      if recovering { RecoverStart(); } else { InstallStart(); }
    }

    lemma ProgressDone(recovering: bool, d: Disk, m: Disk, w: seq<Write>, o: seq<Buf>)
      requires Progress(recovering, d, m, w, o, |lh|)
      ensures if recovering then Recovering(d, w, |lh|) else Installing(d, m, w, o, |lh|) && (lh == [] || HasFree(o))
    {
      hide Log.Installing, Log.Recovering, HasFree;
    }

    method InstallRound(recovering: bool, ghost d: Disk, ghost m: Disk, ghost w: seq<Write>, ghost o: seq<Buf>,
        tail: nat) returns (ok: bool)
      requires Progress(recovering, d, m, w, o, tail) && tail < |lh|
      modifies bc, this`mem
      ensures ok ==> Progress(recovering, d, m, w, o, tail + 1)
      ensures !ok ==> !recovering && !HasFree(o)
    {
      hide Log.Installing, Log.Recovering, HasFree;
      if recovering {
        ok := RecoverStep(d, w, tail);
      } else {
        if HasFree(o) { InstallingFree(d, m, w, o, tail); }
        ok := InstallStep(d, m, w, o, tail);
      }
    }

    lemma RecoverDone(d: Disk, w: seq<Write>)
      requires Recovering(d, w, |lh|)
      ensures Base() && NoneHeld(bc.buf) && mem == bc.disk && Consistent(l, bc.buf, bc.disk, mem, [])
      ensures Moved(l, d, bc.disk, bc.disk, lh, |lh|) && l.Loggable(lh, d) && bc.disk[l.start] == d[l.start]
      ensures bc.writes == w + InstallWrites(l, d, lh, |lh|)
    {
      MovedAll(l, d, bc.disk, mem, lh, bc.buf);
    }

    lemma InstallDone(d: Disk, m: Disk, w: seq<Write>, o: seq<Buf>)
      requires Installing(d, m, w, o, |lh|)
      ensures Base() && mem == bc.disk == m && Consistent(l, bc.buf, bc.disk, mem, [])
      ensures Moved(l, d, bc.disk, bc.disk, lh, |lh|) && l.Loggable(lh, d) && bc.disk[l.start] == d[l.start]
      ensures bc.writes == w + InstallWrites(l, d, lh, |lh|)
      ensures |pins| == |lh| && Unpinned(o, bc.buf, pins, |pins|)
    {
      MovedAll(l, d, bc.disk, mem, lh, bc.buf);
    }

    lemma LoggableNow()
      requires Valid()
      ensures l.Loggable(lh, bc.disk) && l.Loggable(lh, mem) && |pins| == |lh|
    {
      assert l.InLog(l.start);
    }

    lemma UnpinnedNone()
      requires Valid() && lh == []
      ensures pins == [] && Unpinned(bc.buf, bc.buf, pins, |pins|)
    {}

    lemma ColdHasFree()
      requires bc.Valid() && NoneHeld(bc.buf)
      ensures HasFree(bc.buf)
    {
      assert bc.buf[0].refcnt == 0;
    }

    // read_head's loop.
    static method CopyHeader(hb: Block) returns (r: seq<int>)
      requires IsHeader(hb)
      ensures r == Header(hb)
    {
      r := [];
      var i := 0;
      while i < hb.words[0]
        invariant 0 <= i <= hb.words[0] && r == hb.words[1..i + 1]
      {
        r := r + [hb.words[1 + i]];
        i := i + 1;
      }
    }

    // bread while nobody holds a buffer.
    method ReadCold(blockno: nat) returns (b: nat)
      requires bc.Valid() && NoneHeld(bc.buf) && Coherent(bc.buf, bc.disk) && blockno < |bc.disk|
      modifies bc`buf
      ensures bc.Valid() && b < NBUF
      ensures bc.buf == old(bc.buf)[b := Buf(DEV, blockno, true, 1, bc.disk[blockno])]
    {
      ColdHasFree();
      var r := bc.Bread(DEV, blockno);
      b := r.value;
    }

    // lh becomes what the header block on disk names; no buffer stays held.
    method ReadHead()
      requires bc.Valid() && WellFormed(l, bc.disk) && NoneHeld(bc.buf) && Coherent(bc.buf, bc.disk)
      modifies bc, this`lh
      ensures bc.Valid() && NoneHeld(bc.buf) && Coherent(bc.buf, bc.disk)
      ensures bc.disk == old(bc.disk) && bc.writes == old(bc.writes)
      ensures lh == Header(bc.disk[l.start])
    {
      assert |bc.buf| == NBUF && IsHeader(bc.disk[l.start]);
      ghost var o := bc.buf;
      hide NoneHeld, Coherent, Bio.BufferCache.Valid, WellFormed, IsHeader, Header;
      var b := ReadCold(l.start);
      lh := CopyHeader(bc.buf[b].data);
      ColdRefill(o, b, l.start, bc.disk);
      bc.Brelse(b);
    }

    method RecoverFromLog()
      requires bc.Valid() && WellFormed(l, bc.disk) && NoneHeld(bc.buf) && Coherent(bc.buf, bc.disk) && mem == bc.disk
      modifies bc, this`lh, this`mem, this`pins
      ensures Valid() && NoneHeld(bc.buf) && lh == [] && mem == bc.disk
      ensures bc.writes == old(bc.writes) + RecoveryWrites(l, old(bc.disk)) && bc.disk == Recovered(l, old(bc.disk))
    {
      hide Bio.BufferCache.Valid, Consistent, NoneHeld, Coherent, HasFree, Log.Recovering, SameRefs, Moved;
      ghost var d, w := bc.disk, bc.writes;
      ReadHead();
      pins := [];
      ConsistentCold(l, bc.buf, d);
      ColdHasFree();
      var ok := InstallTrans(true);
      RecoverDone(d, w);
      ghost var e, n := bc.disk, bc.buf;
      ColdHasFree();
      lh := [];
      ok := WriteHead();
      RecoveryEnds(l, d, e);
      SameRefsCold(n, bc.buf);
      assert bc.writes == w + RecoveryWrites(l, d);
    }

    lemma LoggedAll(m: Disk, h: Block, w: seq<Write>)
      requires Logging(m, h, w, |lh|)
      ensures Base() && Pinned(bc.buf, lh, pins, 0) && l.Loggable(lh, bc.disk) && l.Loggable(lh, m) && |m| == |bc.disk|
      ensures SameHome(l, mem, m) && bc.disk[l.start] == h && LogHolds(l, bc.disk, m, lh)
      ensures bc.writes == w + LogWrites(l, m, lh, |lh|)
    {}

    // The first half of commit: the log and then its header.
    method LogAndHead() returns (ok: bool)
      requires Valid() && lh != []
      modifies bc, this`mem
      ensures ok <==> HasFree(old(bc.buf))
      ensures ok ==>
        Base() && Pinned(bc.buf, lh, pins, 0) && SameRefs(old(bc.buf), bc.buf)
        && SameHome(l, mem, old(mem))
      ensures l.Loggable(lh, old(bc.disk)) && l.Loggable(lh, old(mem)) && (ok ==> l.Loggable(lh, bc.disk))
      ensures ok ==> bc.disk[l.start] == WithHeader(old(bc.disk)[l.start], lh)
      ensures ok ==> LogHolds(l, bc.disk, mem, lh) && LogHolds(l, bc.disk, old(mem), lh)
      ensures ok ==>
        bc.writes == old(bc.writes) + LogWrites(l, old(mem), lh, |lh|)
        + [HeadWrite(l, old(bc.disk)[l.start], lh)]
      ensures !ok ==> bc.disk == old(bc.disk) && bc.writes == old(bc.writes)
    {
      ghost var o, m, h, w := bc.buf, mem, bc.disk[l.start], bc.writes;
      LoggableNow();
      hide Bio.BufferCache.Valid, Consistent, Pinned, SameRefs, HasFree, Log.Logging, LogHolds, SameHome, WellFormed,
          LogWrites;
      ok := WriteLog();
      if ok {
        LoggedAll(m, h, w);
        ghost var n, d1, m1 := bc.buf, bc.disk, mem;
        SameRefsFree(o, n);
        ok := WriteHead();
        SameRefsTrans(o, n, bc.buf);
        SameRefsKept(n, n, bc.buf, lh, pins);
        HeadKeepsLog(l, d1, m, m1, lh, bc.disk[l.start]);
      }
    }

    // The second half of commit: every home block is written from the log, and then an empty header.
    method InstallAndClear()
      requires Base() && Pinned(bc.buf, lh, pins, 0) && HasFree(bc.buf)
      requires WellFormed(l, bc.disk) && Header(bc.disk[l.start]) == lh && LogHolds(l, bc.disk, mem, lh)
      modifies bc, this`lh, this`mem
      ensures Base() && lh == [] && mem == bc.disk
      ensures SameHome(l, mem, old(mem))
      ensures WellFormed(l, bc.disk) && Header(bc.disk[l.start]) == []
      ensures |pins| == |old(lh)| && Unpinned(old(bc.buf), bc.buf, pins, |pins|)
      ensures bc.writes == old(bc.writes) + InstallWrites(l, old(bc.disk), old(lh), |old(lh)|)
                           + [HeadWrite(l, old(bc.disk)[l.start], [])]
    {
      hide Bio.BufferCache.Valid, Consistent, HasFree, Log.Installing, Pinned, Unpinned, SameRefs, Moved, LogHolds;
      ghost var o, d, m, w := bc.buf, bc.disk, mem, bc.writes;
      var ok := InstallTrans(false);
      InstallDone(d, m, w, o);
      UnpinnedFree(o, bc.buf, pins, |pins|);
      ghost var e, n := bc.disk, bc.buf;
      lh := [];
      ok := WriteHead();
      RecoveryEnds(l, d, e);
      UnpinnedSame(o, n, bc.buf, pins);
    }

    // commit of a transaction that logged something.
    method CommitLogged() returns (ok: bool)
      requires Valid() && lh != []
      modifies bc, this`lh, this`mem, this`pins
      ensures ok <==> HasFree(old(bc.buf))
      ensures ok ==> Valid() && lh == [] && mem == bc.disk && SameHome(l, mem, old(mem))
      ensures ok ==> Unpinned(old(bc.buf), bc.buf, old(pins), |old(pins)|)
      ensures l.Loggable(old(lh), old(bc.disk)) && l.Loggable(old(lh), old(mem))
      ensures ok ==> bc.writes == old(bc.writes) + CommitWrites(l, old(bc.disk), old(mem), old(lh))
      ensures !ok ==> bc.disk == old(bc.disk) && bc.writes == old(bc.writes)
    {
      hide Bio.BufferCache.Valid, Consistent, HasFree, Unpinned, SameRefs, SameHome, LogWrites, InstallWrites,
          CommitWrites, WellFormed;
      ghost var d, m, blocks, o, w := bc.disk, mem, lh, bc.buf, bc.writes;
      ok := LogAndHead();
      if ok {
        SameRefsFree(o, bc.buf);
        ghost var c, n, m1 := bc.disk, bc.buf, mem;
        CommittedIsWellFormed(l, c, blocks);
        InstallAndClear();
        SameHomeTrans(l, mem, m1, m);
        CommitWritesAre(l, d, m, c, blocks, w);
        UnpinnedSince(o, n, bc.buf, pins);
        pins := [];
      }
    }

    /** commit: fails only for want of a buffer.  Otherwise it makes exactly the writes of CommitWrites, the
        home blocks end with the logged contents, every pin is dropped once and no other reference is. */
    method Commit() returns (ok: bool)
      requires Valid()
      modifies bc, this`lh, this`mem, this`pins
      ensures ok <==> old(lh) == [] || HasFree(old(bc.buf))
      ensures ok ==> Valid() && lh == [] && mem == bc.disk && SameHome(l, mem, old(mem))
      ensures ok ==> Unpinned(old(bc.buf), bc.buf, old(pins), |old(pins)|)
      ensures ok && old(lh) == [] ==> bc.disk == old(bc.disk) && bc.writes == old(bc.writes)
      ensures l.Loggable(old(lh), old(bc.disk)) && l.Loggable(old(lh), old(mem))
      ensures ok && old(lh) != [] ==> bc.writes == old(bc.writes) + CommitWrites(l, old(bc.disk), old(mem), old(lh))
      ensures ok && old(Idle(bc.buf, pins)) ==> Idle(bc.buf, pins)
      ensures !ok ==> bc.disk == old(bc.disk) && bc.writes == old(bc.writes)
    {
      LoggableNow();
      PinsApart();
      ghost var o, was := bc.buf, pins;
      hide Log.Valid, HasFree, Unpinned, CommitWrites, Idle, DistinctPins;
      ok := true;
      if lh != [] {
        ok := CommitLogged();
      } else {
        UnpinnedNone();
        NothingLogged();
      }
      if ok && Idle(o, was) {
        IdleUnpinned(o, bc.buf, was);
        NoPins();
      }
    }

    lemma NothingLogged()
      requires Valid() && lh == []
      ensures mem == bc.disk
    {}

    function View(): R.LogState
      reads this
    {
      R.LogState(outstanding, committing, lh)
    }

    // One turn of begin_op's loop; false is a sleep.
    method BeginOp() returns (begun: bool)
      modifies this`outstanding
      ensures begun <==> !committing && |lh| + (old(outstanding) + 1) * R.MAXOPBLOCKS <= LOGSIZE
      ensures outstanding == old(outstanding) + if begun then 1 else 0
      ensures begun <==> R.BeginOp(old(View())).Next?
      ensures begun ==> View() == R.BeginOp(old(View())).state
    {
      if committing {
        begun := false;
      } else if |lh| + (outstanding + 1) * R.MAXOPBLOCKS > LOGSIZE {
        begun := false;
      } else {
        outstanding := outstanding + 1;
        begun := true;
      }
    }

    // end_op: the last call out commits.  It fails on the panic "log.committing" or if the commit fails.
    method EndOp() returns (ok: bool)
      requires Valid() && outstanding > 0
      modifies bc, this
      ensures ok <==> !old(committing) && (old(outstanding) == 1 && old(lh) != [] ==> HasFree(old(bc.buf)))
      ensures ok ==> Valid() && outstanding == old(outstanding) - 1 && !committing && SameHome(l, mem, old(mem))
      ensures ok ==> lh == if outstanding == 0 then [] else old(lh)
      ensures ok && outstanding > 0 ==>
        bc.disk == old(bc.disk) && mem == old(mem)
        && View() == R.EndOp(old(View())).state
      ensures ok && outstanding == 0 ==> mem == bc.disk && View() == R.CommitDone(R.EndOp(old(View())).state).state
      ensures l.Loggable(old(lh), old(bc.disk)) && l.Loggable(old(lh), old(mem))
      ensures ok ==> bc.writes == old(bc.writes) + if outstanding == 0 && old(lh) != []
                                                   then CommitWrites(l, old(bc.disk), old(mem), old(lh)) else []
      ensures ok && old(Idle(bc.buf, pins)) ==> Idle(bc.buf, pins)
      ensures !ok ==> bc.disk == old(bc.disk) && bc.writes == old(bc.writes)
    {
      LoggableNow();
      hide Log.Valid, CommitWrites, Idle, Unpinned, HasFree, SameHome, CrashSafety.Layout.Loggable;
      SameHomeRefl(l, mem);
      outstanding := outstanding - 1;
      if committing {
        return false;
      }
      var doCommit := false;
      if outstanding == 0 {
        doCommit := true;
        committing := true;
      }
      ok := true;
      if doCommit {
        ok := CommitNow();
      }
    }

    // The last call out commits without log.lock, and then lets others in.
    method CommitNow() returns (ok: bool)
      requires Valid()
      modifies bc, this`lh, this`mem, this`pins, this`committing
      ensures ok <==> old(lh) == [] || HasFree(old(bc.buf))
      ensures ok ==> Valid() && lh == [] && !committing && mem == bc.disk && SameHome(l, mem, old(mem))
      ensures l.Loggable(old(lh), old(bc.disk)) && l.Loggable(old(lh), old(mem))
      ensures ok ==> bc.writes == old(bc.writes)
                     + if old(lh) == [] then [] else CommitWrites(l, old(bc.disk), old(mem), old(lh))
      ensures ok && old(Idle(bc.buf, pins)) ==> Idle(bc.buf, pins)
      ensures !ok ==> bc.disk == old(bc.disk) && bc.writes == old(bc.writes)
    {
      hide Log.Valid, CommitWrites, Idle, Unpinned, HasFree, SameHome, CrashSafety.Layout.Loggable;
      ok := Commit();
      committing := false;
    }

    lemma PinsApart()
      requires Valid()
      ensures DistinctPins(pins)
    {
      PinsDistinct(bc.buf, lh, pins);
    }

    lemma NoPins()
      requires Valid() && lh == []
      ensures pins == []
    {}

    // bread of a home block shows its logical contents.
    method BreadHome(blockno: nat) returns (r: Option<nat>)
      requires Valid() && blockno < |bc.disk| && !l.InLog(blockno)
      modifies bc`buf
      ensures r.None? <==> !Cached(old(bc.buf), DEV, blockno) && !HasFree(old(bc.buf))
      ensures r.Some? ==>
        r.value < NBUF && (old(bc.buf)[r.value].Holds(DEV, blockno)
        || old(bc.buf)[r.value].refcnt == 0)
      ensures r.Some? ==> Valid() && bc.buf[r.value].Holds(DEV, blockno)
                          && bc.buf == old(bc.buf)[r.value := Buf(DEV, blockno, true, bc.buf[r.value].refcnt,
                            mem[blockno])]
      ensures r.Some? && old(bc.buf)[r.value].Holds(DEV, blockno) ==>
        bc.buf[r.value].refcnt == old(bc.buf)[r.value].refcnt + 1
      ensures r.Some? && !old(bc.buf)[r.value].Holds(DEV, blockno) ==> bc.buf[r.value].refcnt == 1
      ensures r.Some? && blockno in lh ==> bc.buf[r.value].refcnt > 1
    {
      ghost var o := bc.buf;
      r := bc.Bread(DEV, blockno);
      if r.Some? {
        if blockno in lh { LoggedIsPinned(o, r.value, blockno, lh, pins); }
        if !(Cached(o, DEV, blockno) && o[r.value].valid) { UncachedIsOnDisk(l, o, blockno, bc.disk, mem, lh, pins); }
        HomeRead(l, o, r.value, blockno, bc.buf[r.value].refcnt, bc.disk, mem, lh, pins);
      }
    }

    /** log_write of the held buffer t, whose data the caller has changed: b's block is recorded,
        pinned if it is new, and shows the new data from now on.  False is one of its two panics. */
    method LogWrite(t: nat, ghost o: seq<Buf>) returns (ok: bool)
      requires t < NBUF && |o| == NBUF && bc.Valid() && bc.buf == o[t := o[t].(data := bc.buf[t].data)]
      requires Consistent(l, o, bc.disk, mem, lh) && Pinned(o, lh, pins, 0)
      requires o[t].dev == DEV && o[t].valid && o[t].refcnt > 0 && o[t].blockno < |bc.disk| && !l.InLog(o[t].blockno)
      modifies bc`buf, this`lh, this`pins, this`mem
      ensures ok <==> |old(lh)| < LOGSIZE && |old(lh)| < l.size - 1 && outstanding >= 1
      ensures ok ==> lh == old(lh) + if o[t].blockno in old(lh) then [] else [o[t].blockno]
      ensures ok <==> R.LogWrite(l.size, old(View()), o[t].blockno).Next?
      ensures ok ==> View() == R.LogWrite(l.size, old(View()), o[t].blockno).state
      ensures ok ==> bc.Valid() && Consistent(l, bc.buf, bc.disk, mem, lh) && Pinned(bc.buf, lh, pins, 0)
      ensures ok ==> mem == old(mem)[o[t].blockno := old(bc.buf)[t].data]
      ensures ok ==> bc.buf == old(bc.buf)[t := old(bc.buf)[t].(refcnt := bc.buf[t].refcnt)]
      ensures ok ==> bc.buf[t].refcnt == o[t].refcnt + if o[t].blockno in old(lh) then 0 else 1
      ensures ok ==> pins == old(pins) + if o[t].blockno in old(lh) then [] else [t]
    {
      if |lh| >= LOGSIZE || |lh| >= l.size - 1 { return false; }
      if outstanding < 1 { return false; }
      ghost var x := bc.buf[t].data;
      assert Unique(o) by { UniqueData(o, bc.buf); }
      HomeLogged(l, o, t, x, bc.disk, mem, lh, pins);
      hide Consistent, Pinned, Unique;
      var i := FindBlock(bc.buf[t].blockno);
      mem := mem[bc.buf[t].blockno := x];
      if i == |lh| {
        bc.Bpin(t);
        lh, pins := lh + [bc.buf[t].blockno], pins + [t];
      }
      ok := true;
    }

    // log_write's search for the block in the header.
    method FindBlock(b: nat) returns (i: nat)
      ensures i <= |lh|
      ensures i < |lh| ==> lh[i] == b
      ensures i == |lh| ==> b !in lh
    {
      i := 0;
      while i < |lh|
        invariant 0 <= i <= |lh| && b !in lh[..i]
      {
        if lh[i] == b { return; }
        i := i + 1;
      }
    }

    /** The discipline log_write documents: bread, change the data, log_write, brelse. */
    method Update(blockno: nat, x: Block) returns (ok: bool)
      requires Valid() && blockno < |bc.disk| && !l.InLog(blockno)
      modifies bc, this`lh, this`pins, this`mem
      ensures ok <==> (Cached(old(bc.buf), DEV, blockno) || HasFree(old(bc.buf)))
                      && R.LogWrite(l.size, old(View()), blockno).Next?
      ensures ok ==>
        Valid() && mem == old(mem)[blockno := x]
        && View() == R.LogWrite(l.size, old(View()), blockno).state
      ensures bc.disk == old(bc.disk) && bc.writes == old(bc.writes)
      ensures ok && old(Idle(bc.buf, pins)) ==> Idle(bc.buf, pins)
    {
      hide Cached, HasFree, Consistent, Pinned, WellFormed, Idle;
      ghost var was, ps := bc.buf, pins;
      var r := BreadHome(blockno);
      if r.None? { return false; }
      ghost var o := bc.buf;
      bc.Fill(r.value, x);
      if blockno !in lh { NotPinned(was, lh, ps, r.value, blockno); }
      ok := LogWrite(r.value, o);
      if ok {
        Release(r.value);
        if Idle(was, ps) {
          if pins == ps { IdleKept(was, bc.buf, ps, r.value); } else { IdlePinned(was, bc.buf, ps, r.value); }
        }
      }
    }

    /** bread of any home block, at any time between commits, shows the last logged contents. */
    method Read(blockno: nat) returns (ok: bool, x: Block)
      requires Valid() && blockno < |bc.disk| && !l.InLog(blockno)
      modifies bc
      ensures ok <==> Cached(old(bc.buf), DEV, blockno) || HasFree(old(bc.buf))
      ensures ok ==> Valid() && x == mem[blockno]
      ensures bc.disk == old(bc.disk) && bc.writes == old(bc.writes)
      ensures ok && old(Idle(bc.buf, pins)) ==> Idle(bc.buf, pins)
    {
      hide Cached, HasFree, Consistent, Pinned, WellFormed, Idle;
      ghost var was := bc.buf;
      x := Block([]);
      var r := BreadHome(blockno);
      if r.None? { return false, x; }
      x := bc.buf[r.value].data;
      Release(r.value);
      if Idle(was, pins) { IdleKept(was, bc.buf, pins, r.value); }
      ok := true;
    }

    method Release(t: nat)
      requires Valid() && t < NBUF && bc.buf[t].refcnt > 0 && !l.InLog(bc.buf[t].blockno)
      requires bc.buf[t].blockno in lh ==> bc.buf[t].refcnt > 1
      modifies bc
      ensures Valid() && bc.disk == old(bc.disk) && bc.writes == old(bc.writes)
      ensures bc.buf == old(bc.buf)[t := old(bc.buf)[t].(refcnt := old(bc.buf)[t].refcnt - 1)]
    {
      PinsOutlive(bc.buf, t, lh, pins);
      HomeReleased(l, bc.buf, t, bc.disk, mem, lh, pins);
      bc.Brelse(t);
    }
  }
}
