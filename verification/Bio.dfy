/** The buffer cache of kernel/bio.c: NBUF buffers threaded on a doubly linked
    ring whose head is a sentinel, sorted from most to least recently released,
    above a disk that reads and writes one block at a time. */
module Bio {
  import opened Options

  const NBUF: nat := 30
  const HEAD: nat := NBUF
  const BLOCK_WORDS: nat := 256

  // A disk block as BSIZE / 4 words.
  datatype Block = Block(words: seq<int>)
  type Disk = seq<Block>

  datatype Write = Write(blockno: nat, data: Block)

  // The disk after a series of block writes, each of them atomic.
  ghost function Replay(d: Disk, ws: seq<Write>): (r: Disk)
    ensures |r| == |d|
  {
    if ws == [] then d
    else
      var r, w := Replay(d, ws[..|ws| - 1]), ws[|ws| - 1];
      if w.blockno < |d| then r[w.blockno := w.data] else r
  }

  lemma {:induction false} ReplayConcat(d: Disk, ws: seq<Write>, vs: seq<Write>)
    ensures Replay(d, ws + vs) == Replay(Replay(d, ws), vs)
  {
    if vs == [] {
      assert ws + vs == ws;
    } else {
      assert (ws + vs)[..|ws + vs| - 1] == ws + vs[..|vs| - 1];
      ReplayConcat(d, ws, vs[..|vs| - 1]);
    }
  }

  // These writes have led from start to d.
  ghost predicate Traced(start: Disk, ws: seq<Write>, d: Disk) { d == Replay(start, ws) }

  lemma TracedNext(start: Disk, ws: seq<Write>, d: Disk, w: Write)
    requires Traced(start, ws, d) && w.blockno < |d|
    ensures Traced(start, ws + [w], d[w.blockno := w.data])
  {
    assert (ws + [w])[..|ws|] == ws;
  }

  // So do the writes made since d lead from d.
  lemma TracedSince(start: Disk, ws: seq<Write>, d: Disk, vs: seq<Write>, e: Disk)
    requires Traced(start, ws, d) && Traced(start, ws + vs, e)
    ensures e == Replay(d, vs)
  {
    ReplayConcat(start, ws, vs);
  }

  datatype Buf = Buf(dev: nat, blockno: nat, valid: bool, refcnt: nat, data: Block) {
    predicate Holds(d: nat, b: nat) { dev == d && blockno == b }
  }

  ghost predicate Cached(bufs: seq<Buf>, dev: nat, blockno: nat) {
    exists i :: 0 <= i < |bufs| && bufs[i].Holds(dev, blockno)
  }

  // At most one buffer holds any block of a real device.
  ghost predicate Unique(bufs: seq<Buf>) {
    forall i, j :: 0 <= i < |bufs| && 0 <= j < |bufs| && bufs[i].dev != 0 && bufs[j].Holds(bufs[i].dev, bufs[i].blockno)
                   ==> i == j
  }

  // The k-th buffer of the ring, the sentinel standing on both sides.
  function At(order: seq<nat>, k: int): nat {
    if 0 <= k < |order| then order[k] else HEAD
  }

  ghost predicate Distinct(order: seq<nat>) {
    && (forall i :: 0 <= i < |order| ==> order[i] < NBUF)
    && (forall i, j :: 0 <= i < j < |order| ==> order[i] != order[j])
  }

  // next and prev thread exactly the buffers of order, in that order.
  ghost predicate Ring(next: seq<nat>, prev: seq<nat>, order: seq<nat>) {
    && |next| == |prev| == NBUF + 1
    && Distinct(order)
    && (forall i, j {:trigger At(order, i), At(order, j)} :: -1 <= i < |order| && j == i + 1 ==>
          next[At(order, i)] == At(order, j) && prev[At(order, j)] == At(order, i))
  }

  ghost predicate Sorted(order: seq<nat>, stamp: seq<nat>, clock: nat)
    requires forall i :: 0 <= i < |order| ==> order[i] < |stamp|
  {
    && (forall i :: 0 <= i < |stamp| ==> stamp[i] < clock)
    && (forall i, j :: 0 <= i < j < |order| ==> stamp[order[i]] > stamp[order[j]])
  }

  ghost function Without(order: seq<nat>, k: nat): (r: seq<nat>)
    requires k < |order|
  {
    order[..k] + order[k + 1..]
  }

  ghost function IndexOf(order: seq<nat>, b: nat): (k: nat)
    requires b in order
    ensures k < |order| && order[k] == b
  {
    var k :| 0 <= k < |order| && order[k] == b; k
  }

  ghost function MovedToFront(order: seq<nat>, b: nat): seq<nat>
    requires b in order
  {
    [b] + Without(order, IndexOf(order, b))
  }

  lemma MoveKeepsAll(order: seq<nat>, b: nat)
    requires b in order && forall i :: 0 <= i < NBUF ==> i in order
    ensures forall i :: 0 <= i < NBUF ==> i in MovedToFront(order, b)
  {
    var k := IndexOf(order, b);
    var o' := MovedToFront(order, b);
    forall i: nat | i < NBUF ensures i in o' {
      var m := IndexOf(order, i);
      assert i == o'[if m < k then m + 1 else if m > k then m else 0];
    }
  }

  lemma MoveSorted(order: seq<nat>, b: nat, stamp: seq<nat>, clock: nat)
    requires b in order && Distinct(order) && |stamp| == NBUF && Sorted(order, stamp, clock)
    ensures Distinct(MovedToFront(order, b)) && Sorted(MovedToFront(order, b), stamp[b := clock], clock + 1)
  {
    var k := IndexOf(order, b);
    var o' := MovedToFront(order, b);
    forall i | 0 < i < |o'| ensures o'[i] == order[if i <= k then i - 1 else i] {}
  }

  lemma UnlinkRing(next: seq<nat>, prev: seq<nat>, order: seq<nat>, k: nat)
    requires Ring(next, prev, order) && k < |order|
    ensures var b := order[k];
            next[b] <= NBUF && prev[b] <= NBUF &&
            Ring(next[prev[b] := next[b]], prev[next[b] := prev[b]], Without(order, k))
  {
    var b := order[k];
    var o' := Without(order, k);
    assert At(order, k) == b;
    assert next[b] == At(order, k + 1) && prev[b] == At(order, k - 1);
    var next' := next[prev[b] := next[b]];
    var prev' := prev[next[b] := prev[b]];
    forall i, j | -1 <= i < |o'| && j == i + 1
      ensures next'[At(o', i)] == At(o', j) && prev'[At(o', j)] == At(o', i)
    {
      var i0 := if i < k then i else i + 1;
      var j0 := if j < k then j else j + 1;
      assert At(o', i) == At(order, i0) && At(o', j) == At(order, j0);
      assert At(order, i0 + 1) == next[At(order, i0)];
    }
  }

  lemma PushRing(next: seq<nat>, prev: seq<nat>, order: seq<nat>, b: nat)
    requires Ring(next, prev, order) && b < NBUF && b !in order
    ensures var h := next[HEAD];
            h <= NBUF &&
            Ring(next[b := h][HEAD := b], prev[b := HEAD][h := b], [b] + order)
  {
    var o' := [b] + order;
    assert At(order, -1) == HEAD && next[HEAD] == At(order, 0);
    var h := next[HEAD];
    var next' := next[b := h][HEAD := b];
    var prev' := prev[b := HEAD][h := b];
    forall i, j | -1 <= i < |o'| && j == i + 1
      ensures next'[At(o', i)] == At(o', j) && prev'[At(o', j)] == At(o', i)
    {
      if i >= 1 {
        assert At(o', i) == At(order, i - 1) && At(o', j) == At(order, j - 1);
      } else if i == 0 {
        assert At(o', i) == b && At(o', j) == At(order, 0);
      }
    }
  }

  class BufferCache {
    var buf: seq<Buf>
    var next: seq<nat>
    var prev: seq<nat>
    var disk: Disk
    ghost var order: seq<nat>     // the ring, most recently released first
    ghost var stamp: seq<nat>     // when brelse last freed each buffer
    ghost var clock: nat
    ghost const start: Disk
    ghost var writes: seq<Write>  // every block write since the disk was start

    ghost predicate Valid()
      reads this
    {
      && |buf| == NBUF
      && Ring(next, prev, order)
      && (forall b :: 0 <= b < NBUF ==> b in order)
      && |stamp| == NBUF && Sorted(order, stamp, clock)
      && Unique(buf) && Traced(start, writes, disk)
    }

    // binit: every buffer starts on device 0, invalid and unreferenced.
    constructor (d: Disk)
      ensures Valid()
      ensures disk == d && writes == []
      ensures forall i :: 0 <= i < NBUF ==> buf[i].Holds(0, 0) && !buf[i].valid && buf[i].refcnt == 0
    {
      buf := seq(NBUF, i => Buf(0, 0, false, 0, Block(seq(BLOCK_WORDS, i => 0))));
      next := seq(NBUF + 1, i => HEAD);
      prev := seq(NBUF + 1, i => HEAD);
      disk, start := d, d;
      writes, order, clock := [], [], NBUF;
      stamp := seq(NBUF, i requires i >= 0 => i);
      new;
      var b := 0;
      while b < NBUF
        modifies this`next, this`prev, this`order
        invariant 0 <= b <= NBUF
        invariant |order| == b && Ring(next, prev, order)
        invariant forall i :: 0 <= i < b ==> order[i] == b - 1 - i
      {
        PushFront(b);
        b := b + 1;
      }
      forall b | 0 <= b < NBUF ensures b in order {
        assert order[NBUF - 1 - b] == b;
      }
    }

    method Unlink(b: nat, ghost k: nat)
      requires Ring(next, prev, order) && k < |order| && order[k] == b
      modifies this`next, this`prev, this`order
      ensures order == Without(old(order), k) && Ring(next, prev, order)
    {
      UnlinkRing(next, prev, order, k);
      prev := prev[next[b] := prev[b]];
      next := next[prev[b] := next[b]];
      order := Without(order, k);
    }

    method PushFront(b: nat)
      requires Ring(next, prev, order) && b < NBUF && b !in order
      modifies this`next, this`prev, this`order
      ensures order == [b] + old(order) && Ring(next, prev, order)
    {
      PushRing(next, prev, order, b);
      next := next[b := next[HEAD]];
      prev := prev[b := HEAD];
      prev := prev[next[HEAD] := b];
      next := next[HEAD := b];
      order := [b] + order;
    }

    // bget under bcache.lock; None is the panic "bget: no buffers".
    method Bget(dev: nat, blockno: nat) returns (r: Option<nat>)
      requires Valid()
      modifies this`buf
      ensures Valid()
      ensures r.None? <==> !Cached(old(buf), dev, blockno) && forall i :: 0 <= i < NBUF ==> old(buf)[i].refcnt > 0
      ensures r.None? ==> buf == old(buf)
      ensures r.Some? ==> r.value < NBUF
      ensures r.Some? && Cached(old(buf), dev, blockno) ==>
                var o := old(buf)[r.value];
                o.Holds(dev, blockno) && buf == old(buf)[r.value := o.(refcnt := o.refcnt + 1)]
      ensures r.Some? && !Cached(old(buf), dev, blockno) ==>
                var o := old(buf)[r.value];
                && o.refcnt == 0
                && buf == old(buf)[r.value := Buf(dev, blockno, false, 1, o.data)]
                && forall i :: 0 <= i < NBUF && old(buf)[i].refcnt == 0 ==> stamp[r.value] <= stamp[i]
    {
      ghost var k := 0;
      var b := next[HEAD];
      assert At(order, -1) == HEAD && At(order, 0) == b;
      while b != HEAD
        invariant 0 <= k <= |order| && b == At(order, k)
        invariant forall i :: 0 <= i < k ==> !buf[order[i]].Holds(dev, blockno)
        decreases |order| - k
      {
        if buf[b].dev == dev && buf[b].blockno == blockno {
          buf := buf[b := buf[b].(refcnt := buf[b].refcnt + 1)];
          return Some(b);
        }
        assert At(order, k + 1) == next[b];
        b, k := next[b], k + 1;
      }
      forall i | 0 <= i < NBUF ensures !buf[i].Holds(dev, blockno) {
        assert i in order;
      }
      k := |order| - 1;
      b := prev[HEAD];
      assert At(order, |order|) == HEAD && At(order, k) == b;
      while b != HEAD
        invariant -1 <= k < |order| && b == At(order, k)
        invariant forall i :: k < i < |order| ==> buf[order[i]].refcnt > 0
        decreases k
      {
        if buf[b].refcnt == 0 {
          forall i | 0 <= i < NBUF && buf[i].refcnt == 0 ensures stamp[b] <= stamp[i] {
            assert i in order;
            var m :| 0 <= m < |order| && order[m] == i;
          }
          buf := buf[b := Buf(dev, blockno, false, 1, buf[b].data)];
          return Some(b);
        }
        assert At(order, k - 1) == prev[b];
        b, k := prev[b], k - 1;
      }
      forall i | 0 <= i < NBUF ensures buf[i].refcnt > 0 {
        assert i in order;
      }
      return None;
    }

    // bread: virtio_disk_rw fills a buffer that is not yet valid.
    method Bread(dev: nat, blockno: nat) returns (r: Option<nat>)
      requires Valid() && blockno < |disk|
      modifies this`buf
      ensures Valid()
      ensures r.None? <==> !Cached(old(buf), dev, blockno) && forall i :: 0 <= i < NBUF ==> old(buf)[i].refcnt > 0
      ensures r.None? ==> buf == old(buf)
      ensures r.Some? ==> r.value < NBUF
      ensures r.Some? && Cached(old(buf), dev, blockno) ==>
                var o := old(buf)[r.value];
                && o.Holds(dev, blockno)
                && buf == old(buf)[r.value := Buf(dev, blockno, true, o.refcnt + 1,
                                                        if o.valid then o.data else disk[blockno])]
      ensures r.Some? && !Cached(old(buf), dev, blockno) ==>
                && old(buf)[r.value].refcnt == 0
                && buf == old(buf)[r.value := Buf(dev, blockno, true, 1, disk[blockno])]
    {
      r := Bget(dev, blockno);
      if r.Some? && !buf[r.value].valid {
        buf := buf[r.value := buf[r.value].(data := disk[blockno], valid := true)];
      }
    }

    // The caller of bread fills b->data.
    method Fill(b: nat, data: Block)
      requires Valid() && b < NBUF
      modifies this`buf
      ensures Valid()
      ensures buf == old(buf)[b := old(buf)[b].(data := data)]
    {
      buf := buf[b := buf[b].(data := data)];
    }

    method Bwrite(b: nat)
      requires Valid() && b < NBUF && buf[b].blockno < |disk|
      modifies this`disk, this`writes
      ensures Valid()
      ensures disk == old(disk)[buf[b].blockno := buf[b].data]
      ensures writes == old(writes) + [Write(buf[b].blockno, buf[b].data)]
    {
      TracedNext(start, writes, disk, Write(buf[b].blockno, buf[b].data));
      disk := disk[buf[b].blockno := buf[b].data];
      writes := writes + [Write(buf[b].blockno, buf[b].data)];
    }

    method Brelse(b: nat)
      requires Valid() && b < NBUF && buf[b].refcnt > 0
      modifies this`order, this`stamp, this`clock, this`buf, this`next, this`prev
      ensures Valid()
      ensures buf == old(buf)[b := old(buf)[b].(refcnt := old(buf)[b].refcnt - 1)]
      ensures buf[b].refcnt > 0 ==> order == old(order) && stamp == old(stamp)
      ensures b in old(order)
      ensures buf[b].refcnt == 0 ==> order == MovedToFront(old(order), b) && stamp == old(stamp)[b := old(clock)]
    {
      buf := buf[b := buf[b].(refcnt := buf[b].refcnt - 1)];
      if buf[b].refcnt == 0 {
        ghost var k := IndexOf(order, b);
        MoveKeepsAll(order, b);
        MoveSorted(order, b, stamp, clock);
        Unlink(b, k);
        PushFront(b);
        stamp := stamp[b := clock];
        clock := clock + 1;
      }
    }

    method Bpin(b: nat)
      requires Valid() && b < NBUF
      modifies this`buf
      ensures Valid()
      ensures buf == old(buf)[b := old(buf)[b].(refcnt := old(buf)[b].refcnt + 1)]
    {
      buf := buf[b := buf[b].(refcnt := buf[b].refcnt + 1)];
    }

    method Bunpin(b: nat)
      requires Valid() && b < NBUF && buf[b].refcnt > 0
      modifies this`buf
      ensures Valid()
      ensures buf == old(buf)[b := old(buf)[b].(refcnt := old(buf)[b].refcnt - 1)]
    {
      buf := buf[b := buf[b].(refcnt := buf[b].refcnt - 1)];
    }
  }
}
