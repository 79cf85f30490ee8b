/** File contents: balloc, bfree, bmap, itrunc, readi, writei (kernel/fs.c) and
    filewrite's loop (kernel/file.c).  Blocks are read and written through the
    log, so here a block update is one assignment and a mark in `logged`. */
module Fs {
  import opened Bytes
  import opened Inodes
  import Reservation
  import Sets
  import opened Space

  class FileSystem {
    var blocks: seq<seq<int>>
    var inodes: map<nat, Inode>      // in-memory inodes
    var dinodes: map<nat, Inode>     // their copies on disk
    ghost var own: map<int, Owner>
    ghost var logged: set<int>       // blocks log_write was called on since begin_op
    const sb: Super

    ghost var files: map<nat, seq<int>>  // each file as a flat sequence of bytes

    ghost function S(): State
      reads this
    {
      State(blocks, inodes, own)
    }

    ghost predicate Valid()
      reads this
    {
      Owned(sb, S()) && Holds(S(), files) && dinodes == inodes
    }

    // A file system as mkfs leaves it but for its files: every block before the data is marked.
    constructor (sb: Super, inums: set<nat>)
      requires SuperOk(sb)
      ensures Valid() && this.sb == sb && own == map[] && files.Keys == inums
      ensures forall i :: i in files ==> files[i] == []
    {
      this.sb := sb;
      blocks := seq(sb.size, _ => Zeros());
      inodes := map i | i in inums :: Inode(NoBlocks(), 0);
      dinodes := map i | i in inums :: Inode(NoBlocks(), 0);
      own, logged := map[], {};
      files := map i | i in inums :: [];
      new;
      hide InUse;
      forall c: nat | c < sb.size ensures !InUse(sb, blocks, c) { BlankBit(sb, blocks, c); }
      var b := 0;
      while b < sb.datastart
        modifies this`blocks, this`logged
        invariant b <= sb.datastart && BlocksOk(sb, blocks)
        invariant forall c: nat :: c < sb.size ==> (InUse(sb, blocks, c) <==> c < b)
      {
        MarkedIs(sb, blocks, b, true);
        Mark(b, true);
        b := b + 1;
      }
    }

    method Bzero(b: nat)
      requires b < |blocks|
      modifies this`blocks, this`logged
      ensures blocks == old(blocks)[b := Zeros()] && logged == old(logged) + {b}
      ensures Covers(old(blocks), old(logged), blocks, logged)
    {
      blocks := blocks[b := Zeros()];
      logged := logged + {b};
    }

    // Set or clear block b's bit.
    method Mark(b: nat, on: bool)
      requires SuperOk(sb) && BlocksOk(sb, blocks) && b < sb.size
      modifies this`blocks, this`logged
      ensures blocks == Marked(sb, old(blocks), b, on) && logged == old(logged) + {Bblock(sb, b)}
      ensures Covers(old(blocks), old(logged), blocks, logged)
    {
      var k := Bblock(sb, b);
      assert IsByte(blocks[k][Bbyte(b)]);
      var x := blocks[k][Bbyte(b)];
      blocks := blocks[k := blocks[k][Bbyte(b) := if on then SetBit(x, b % 8) else ClearBit(x, b % 8)]];
      logged := logged + {k};
    }

    // The first free block, zeroed, or 0.
    method Balloc() returns (r: nat)
      requires BitsMatch(sb, S())
      modifies this`blocks, this`logged
      ensures r == 0 ==> blocks == old(blocks) && logged == old(logged) && forall c: nat :: c < sb.size ==>
        InUse(sb, blocks, c)
      ensures r != 0 ==> Free(sb, old(S()), r) && blocks == Taken(sb, old(blocks), r)
      ensures r != 0 ==> logged == old(logged) + {Bblock(sb, r), r}
      ensures r != 0 ==> forall c: nat :: c < r ==> InUse(sb, old(blocks), c)
      ensures Covers(old(blocks), old(logged), blocks, logged)
    {
      hide InUse, Marked, Bit, Taken, Covers;
      CoversNothing(blocks, logged);
      var b := 0;
      while b < sb.size
        invariant b % BPB == 0 && blocks == old(blocks) && logged == old(logged)
        invariant forall c: nat :: c < b && c < sb.size ==> InUse(sb, blocks, c)
      {
        var bi := 0;
        while bi < BPB && b + bi < sb.size
          invariant bi <= BPB && blocks == old(blocks) && logged == old(logged)
          invariant forall c: nat :: c < b + bi && c < sb.size ==> InUse(sb, blocks, c)
        {
          BitAt(sb, blocks, b, bi);
          if !Bit(blocks[Bblock(sb, b)][bi / 8], bi % 8) {
            r := b + bi;
            assert !InUse(sb, blocks, r);
            Grab(r);
            return;
          }
          bi := bi + 1;
        }
        b := b + BPB;
      }
      r := 0;
    }

    // Mark and zero block r.
    method Grab(r: nat)
      requires SuperOk(sb) && BlocksOk(sb, blocks) && r < sb.size
      modifies this`blocks, this`logged
      ensures blocks == Taken(sb, old(blocks), r) && logged == old(logged) + {Bblock(sb, r), r}
      ensures Covers(old(blocks), old(logged), blocks, logged)
    {
      hide InUse, Marked, Covers;
      MarkedIs(sb, blocks, r, true);
      Mark(r, true);
      ghost var mid, seen := blocks, logged;
      Bzero(r);
      CoversTwice(old(blocks), old(logged), mid, seen, blocks, logged);
    }

    method Bfree(b: nat)
      requires SuperOk(sb) && BlocksOk(sb, blocks) && b < sb.size && InUse(sb, blocks, b)
      modifies this`blocks, this`logged
      ensures blocks == Marked(sb, old(blocks), b, false) && logged == old(logged) + {Bblock(sb, b)}
      ensures Covers(old(blocks), old(logged), blocks, logged)
    {
      Mark(b, false);
    }

    ghost predicate DiskFull()
      reads this
    {
      AllUsed(sb, blocks)
    }

    // A new block for entry k of the inode itself.
    method NameBlock(i: nat, k: nat) returns (b: nat)
      requires Owned(sb, S()) && i in inodes && k <= NDIRECT && inodes[i].addrs[k] == 0
      modifies this`blocks, this`inodes, this`own, this`logged
      ensures Owned(sb, S()) && Extends(old(S()), S())
      ensures b == 0 ==> S() == old(S()) && logged == old(logged) && DiskFull()
      ensures b != 0 ==>
        b < sb.size && S() == Named(sb, old(S()), i, k, b)
        && logged == old(logged) + {Bblock(sb, b), b}
      ensures b != 0 && k < NDIRECT ==> Addr(S(), i, k) == b
      ensures Filled(sb, old(S()), S(), {if k < NDIRECT then Data(i, k) else Ind(i)}, b != 0)
      ensures Covers(old(blocks), old(logged), blocks, logged)
    {
      hide InUse, Taken, Addr, Forward, Backward, Filled, Held, Covers;
      ghost var s := S();
      ghost var o := if k < NDIRECT then Data(i, k) else Ind(i);
      if k < NDIRECT { DirectAt(s, i, k); }
      EmptyPlace(sb, s, o);
      b := Balloc();
      if b == 0 {
        ExtendsNothing(s);
        NoneToGive(sb, s, o);
        return;
      }
      NamedGiven(sb, s, i, k, b);
      inodes := inodes[i := inodes[i].(addrs := inodes[i].addrs[k := b])];
      own := own[b := if k < NDIRECT then Data(i, k) else Ind(i)];
      assert S() == Named(sb, s, i, k, b);
      GivenFilled(sb, s, S(), b, o);
    }

    // A new block for entry k of the indirect block.
    method ListBlock(i: nat, k: nat) returns (b: nat)
      requires Owned(sb, S()) && i in inodes && k < NINDIRECT && IndOf(inodes[i]) != 0 && Addr(S(), i, NDIRECT + k) == 0
      modifies this`blocks, this`inodes, this`own, this`logged
      ensures Owned(sb, S()) && Extends(old(S()), S()) && inodes == old(inodes)
      ensures b == 0 ==> S() == old(S()) && logged == old(logged) && DiskFull()
      ensures b != 0 ==> Addr(S(), i, NDIRECT + k) == b && b < sb.size
      ensures b != 0 ==> logged == old(logged) + {Bblock(sb, b), b, IndOf(inodes[i])}
      ensures Filled(sb, old(S()), S(), {Data(i, NDIRECT + k)}, b != 0)
      ensures Covers(old(blocks), old(logged), blocks, logged)
    {
      hide InUse, Taken, Addr, Forward, Backward, PutWord, Filled, Held, Covers;
      ghost var s := S();
      EmptyPlace(sb, s, Data(i, NDIRECT + k));
      b := Balloc();
      ghost var mid, seen := blocks, logged;
      if b == 0 {
        ExtendsNothing(s);
        NoneToGive(sb, s, Data(i, NDIRECT + k));
        return;
      }
      ListedGiven(sb, s, i, k, b);
      ListedIs(sb, s, i, k, b);
      var a := inodes[i].addrs[NDIRECT];
      blocks := blocks[a := PutWord(blocks[a], k, b)];
      logged := logged + {a};
      CoversOne(mid, seen, a, blocks[a]);
      CoversTwice(s.blocks, old(logged), mid, seen, blocks, logged);
      own := own[b := Data(i, NDIRECT + k)];
      assert S() == Listed(sb, s, i, k, b);
      GivenFilled(sb, s, S(), b, Data(i, NDIRECT + k));
    }

    method Bmap(i: nat, bn: nat) returns (addr: int, ghost bits: set<int>)
      requires Owned(sb, S()) && i in inodes && bn < MAXFILE
      modifies this`blocks, this`inodes, this`own, this`logged
      ensures BmapDid(sb, old(S()), S(), i, bn, old(logged), logged, addr, bits)
      ensures Covers(old(blocks), old(logged), blocks, logged)
    {
      hide BmapDid, Owned, Covers;
      if bn < NDIRECT {
        addr, bits := BmapDirect(i, bn);
      } else {
        addr, bits := BmapIndirect(i, bn - NDIRECT);
      }
    }

    method BmapDirect(i: nat, bn: nat) returns (addr: int, ghost bits: set<int>)
      requires Owned(sb, S()) && i in inodes && bn < NDIRECT
      modifies this`blocks, this`inodes, this`own, this`logged
      ensures BmapDid(sb, old(S()), S(), i, bn, old(logged), logged, addr, bits)
      ensures Covers(old(blocks), old(logged), blocks, logged)
    {
      hide InUse, Taken, Forward, Backward, Extends, ByteAt, Filled, Places, Covers;
      CoversNothing(blocks, logged);
      bits := {};
      addr := inodes[i].addrs[bn];
      DirectPlace(i, bn);
      if addr == 0 {
        addr := NameBlock(i, bn);
        bits := if addr == 0 then {} else {Bblock(sb, addr)};
      } else {
        ExtendsNothing(S());
        DataPlaced(sb, S(), i, bn);
      }
    }

    method BmapIndirect(i: nat, k: nat) returns (addr: int, ghost bits: set<int>)
      requires Owned(sb, S()) && i in inodes && k < NINDIRECT
      modifies this`blocks, this`inodes, this`own, this`logged
      ensures BmapDid(sb, old(S()), S(), i, NDIRECT + k, old(logged), logged, addr, bits)
      ensures Covers(old(blocks), old(logged), blocks, logged)
    {
      hide InUse, Taken, Owned, Extends, ByteAt, Filled, Places, AllUsed, Bblock, Addr, WordAt, OnlyInode, IsBlock,
        Covers;
      ghost var s := S();
      NoListNoAddr(s, i, NDIRECT + k);
      addr, bits := FindList(i);
      if addr == 0 {
        NoListNoPlace(sb, s, i, NDIRECT + k);
        return;
      }
      ghost var t, seen := S(), logged;
      IndInArea(sb, t, i);
      ListSize(t.blocks[IndOf(t.inodes[i])]);
      OwnedInode(sb, t, i);
      ListedAt(t, i, k);
      addr := WordAt(blocks[addr], k);
      if addr == 0 {
        addr := ListBlock(i, k);
        ExtendsTwice(s, t, S());
        CoversTwice(s.blocks, old(logged), t.blocks, seen, blocks, logged);
        if addr != 0 { bits := bits + {Bblock(sb, addr)}; }
      } else {
        DataPlaced(sb, t, i, NDIRECT + k);
      }
      FilledTwice(sb, s, t, S(), {Ind(i)}, {Data(i, NDIRECT + k)}, addr != 0);
      DirectPlace(i, NDIRECT + k);
    }

    // The indirect block of inode i, allocated if need be.
    method FindList(i: nat) returns (a: int, ghost bits: set<int>)
      requires Owned(sb, S()) && i in inodes
      modifies this`blocks, this`inodes, this`own, this`logged
      ensures Owned(sb, S()) && Extends(old(S()), S()) && OnlyInode(old(inodes), inodes, i)
      ensures i in inodes && a == IndOf(inodes[i]) && Filled(sb, old(S()), S(), {Ind(i)}, a != 0)
      ensures old(IndOf(inodes[i])) != 0 || a == 0 ==> S() == old(S()) && logged == old(logged) && bits == {}
      ensures a == 0 ==> DiskFull()
      ensures old(IndOf(inodes[i])) == 0 && a != 0 ==> |bits| == 1 && logged == old(logged) + bits + {a}
      ensures Covers(old(blocks), old(logged), blocks, logged)
    {
      hide InUse, Taken, Forward, Backward, Extends, ByteAt, Filled, AllUsed, BitsMatch, Bblock, Covers;
      CoversNothing(blocks, logged);
      bits := {};
      a := inodes[i].addrs[NDIRECT];
      if a == 0 {
        a := NameBlock(i, NDIRECT);
        if a != 0 { bits := {Bblock(sb, a)}; }
      } else {
        ExtendsNothing(S());
        ListPlaced(sb, S(), i);
      }
    }

    method Iupdate(i: nat)
      requires i in inodes
      modifies this`dinodes, this`logged
      ensures dinodes == old(dinodes)[i := inodes[i]] && logged == old(logged) + {i / IPB + sb.inodestart}
    {
      dinodes := dinodes[i := inodes[i]];
      logged := logged + {i / IPB + sb.inodestart};
    }

    // One bfree of itrunc, of the block at place o if there is one.
    method FreePlace(b: int, ghost s: State, ghost i: nat, ghost o: Owner,
                     ghost k: nat, ghost j: nat, ghost ind: bool, ghost k': nat, ghost j': nat, ghost ind': bool)
      requires Owned(sb, s) && i in s.inodes && Trimmed(sb, s, S(), i, k, j, ind) && !Gone(o, i, k, j, ind)
        && o.inum == i
      requires forall q: Owner :: Gone(q, i, k', j', ind') <==> Gone(q, i, k, j, ind) || q == o
      requires b == match o case Data(_, n) => Addr(s, i, n) case Ind(_) => IndOf(s.inodes[i])
      modifies this`blocks, this`own, this`logged
      ensures Trimmed(sb, s, S(), i, k', j', ind')
      ensures Covers(old(blocks), old(logged), blocks, logged)
    {
      hide InUse, Marked, Addr, Forward, Backward, Gone, Covers;
      CoversNothing(blocks, logged);
      Sitter(sb, s, o);
      TrimNext(sb, s, S(), i, k, j, ind, k', j', ind', o, b);
      if b != 0 {
        ReleasedBits(sb, S(), b);
        Bfree(b);
        own := own - {b};
      }
    }

    method Itrunc(i: nat)
      requires Valid() && i in inodes
      modifies this
      ensures Valid() && files == old(files)[i := []]
      ensures Without(old(own), own, i)
      ensures Covers(old(blocks), old(logged), blocks, logged)
      ensures InodesCovered(sb, old(dinodes), dinodes, logged)
    {
      hide InUse, Owned, Addr, Trimmed, Holds, ByteAt, Without, Covers;
      OwnedInode(sb, S(), i);
      ghost var s := S();
      FreeDirect(i);
      ghost var mid, seen := blocks, logged;
      FreeList(s, i);
      CoversTwice(s.blocks, old(logged), mid, seen, blocks, logged);
      ghost var t := S();
      inodes := inodes[i := inodes[i].(addrs := inodes[i].addrs[NDIRECT := 0])];
      inodes := inodes[i := inodes[i].(size := 0)];
      AllCleared(s.inodes, inodes, i);
      ghost var marks := logged;
      Iupdate(i);
      CoversMore(s.blocks, old(logged), blocks, marks, logged);
      files := files[i := []];
      assert S() == Truncated(s, t, i);
      Truncation(sb, s, t, i, old(files));
    }

    // The first half of itrunc: the direct blocks.
    method FreeDirect(i: nat)
      requires Owned(sb, S()) && i in inodes
      modifies this`blocks, this`inodes, this`own, this`logged
      ensures Trimmed(sb, old(S()), S(), i, NDIRECT, 0, false)
      ensures inodes.Keys == old(inodes).Keys && Clearing(old(inodes), inodes, i, NDIRECT)
        && inodes[i].size == old(inodes)[i].size
      ensures Covers(old(blocks), old(logged), blocks, logged)
    {
      hide InUse, Forward, Backward, Addr, Covers;
      CoversNothing(blocks, logged);
      ghost var s := S();
      var k := 0;
      while k < NDIRECT
        invariant k <= NDIRECT && Trimmed(sb, s, S(), i, k, 0, false)
        invariant inodes.Keys == s.inodes.Keys && Clearing(s.inodes, inodes, i, k) && inodes[i].size == s.inodes[i].size
        invariant Covers(s.blocks, old(logged), blocks, logged)
      {
        ghost var mid, seen := blocks, logged;
        DirectAt(s, i, k);
        FreePlace(inodes[i].addrs[k], s, i, Data(i, k), k, 0, false, k + 1, 0, false);
        CoversTwice(s.blocks, old(logged), mid, seen, blocks, logged);
        inodes := inodes[i := inodes[i].(addrs := inodes[i].addrs[k := 0])];
        k := k + 1;
      }
    }

    // The second half of itrunc: the listed blocks, then the list.
    method FreeList(ghost s: State, i: nat)
      requires Owned(sb, s) && i in s.inodes && Trimmed(sb, s, S(), i, NDIRECT, 0, false)
      requires i in inodes && |inodes[i].addrs| == NDIRECT + 1 && inodes[i].addrs[NDIRECT] == IndOf(s.inodes[i])
      modifies this`blocks, this`own, this`logged
      ensures Trimmed(sb, s, S(), i, NDIRECT, NINDIRECT, true)
      ensures Covers(old(blocks), old(logged), blocks, logged)
    {
      hide InUse, Forward, Backward, Addr, Gone, Covers;
      CoversNothing(blocks, logged);
      var a := inodes[i].addrs[NDIRECT];
      if a == 0 {
        NoList(sb, s, S(), i);
        return;
      }
      IndInArea(sb, s, i);
      IndIsData(sb, s, i);
      var j := 0;
      while j < NINDIRECT
        invariant j <= NINDIRECT && Trimmed(sb, s, S(), i, NDIRECT, j, false)
        invariant Covers(old(blocks), old(logged), blocks, logged)
      {
        ghost var mid, seen := blocks, logged;
        ListedAt(s, i, j);
        GoneListed(i, j);
        FreePlace(WordAt(blocks[a], j), s, i, Data(i, NDIRECT + j), NDIRECT, j, false, NDIRECT, j + 1, false);
        CoversTwice(old(blocks), old(logged), mid, seen, blocks, logged);
        j := j + 1;
      }
      GoneList(i);
      ghost var mid, seen := blocks, logged;
      FreePlace(a, s, i, Ind(i), NDIRECT, NINDIRECT, false, NDIRECT, NINDIRECT, true);
      CoversTwice(old(blocks), old(logged), mid, seen, blocks, logged);
    }

    method Readi(i: nat, off: nat, n: nat) returns (r: seq<int>)
      requires Valid() && i in inodes && IsWord(off) && IsWord(n)
      modifies this`blocks, this`inodes, this`own, this`logged
      ensures S() == old(S()) && logged == old(logged) && i in files
      ensures r == if off > |files[i]| || !IsWord(off + n) then [] else files[i][off..Min(off + n, |files[i]|)]
    {
      hide InUse, Owned, Addr, Extends, ByteAt;
      ghost var s, f := S(), files[i];
      assert FileIs(s, i, f);
      r := [];
      if off > inodes[i].size || !IsWord(off + n) { return; }
      var len := if off + n > inodes[i].size then inodes[i].size - off else n;
      while |r| < len
        invariant S() == s && logged == old(logged) && |r| <= len && off + len <= |f| && r == f[off..off + |r|]
      {
        var cur := off + |r|;
        InFile(sb, s, i, f, cur);
        var addr, _ := Bmap(i, cur / BSIZE);
        var m := Min(len - |r|, BSIZE - cur % BSIZE);
        ChunkOf(s, i, f, cur, m);
        r := r + blocks[addr][cur % BSIZE..cur % BSIZE + m];
      }
    }

    // One block of writei's loop.
    method WriteBlock(i: nat, cur: nat, d: seq<int>) returns (ok: bool, addr: int, ghost bits: set<int>)
      requires Owned(sb, S()) && i in inodes && cur / BSIZE < MAXFILE && AllBytes(d) && cur % BSIZE + |d| <= BSIZE
      modifies this`blocks, this`inodes, this`own, this`logged
      ensures Owned(sb, S()) && i in inodes
      ensures ok <==> addr != 0
      ensures !ok ==> Extends(old(S()), S()) && DiskFull() && old(Addr(S(), i, cur / BSIZE)) == 0
      ensures ok ==> Advanced(old(S()), S(), i, cur, d)
      ensures OnlyInode(old(inodes), inodes, i)
      ensures LogsFor(old(logged), logged, addr, IndOf(inodes[i]), bits)
      ensures old(IndOf(inodes[i])) != 0 ==> IndOf(inodes[i]) == old(IndOf(inodes[i]))
      ensures |bits| <= Count(old(Addr(S(), i, cur / BSIZE)) == 0)
        + Count(old(IndOf(inodes[i])) == 0 && IndOf(inodes[i]) != 0)
      ensures Filled(sb, old(S()), S(), Places(i, cur / BSIZE, cur / BSIZE + 1), ok)
      ensures Covers(old(blocks), old(logged), blocks, logged)
    {
      hide Filled, Places, InUse, Owned, Addr, Extends, ByteAt, Patched, Covers;
      ghost var s := S();
      addr, bits := Bmap(i, cur / BSIZE);
      if addr == 0 { return false, addr, bits; }
      ghost var t, seen := S(), logged;
      WrittenKeeps(sb, t, i, cur / BSIZE, cur % BSIZE, d);
      WroteBlock(sb, s, t, i, cur, d);
      blocks := blocks[addr := Patched(blocks[addr], cur % BSIZE, d)];
      logged := logged + {addr};
      CoversOne(t.blocks, seen, addr, blocks[addr]);
      CoversTwice(s.blocks, old(logged), t.blocks, seen, blocks, logged);
      FilledOwn(sb, s, t, S(), Places(i, cur / BSIZE, cur / BSIZE + 1));
      ok := true;
    }

    // writei's loop: puts data at off, as far as blocks can be had.
    method WriteLoop(i: nat, off: nat, data: seq<int>) returns (tot: nat, ghost datas: set<int>, ghost bits: set<int>)
      requires Owned(sb, S()) && i in inodes && AllBytes(data) && off + |data| <= MAXFILE * BSIZE
      requires off % BSIZE != 0 ==> Addr(S(), i, off / BSIZE) != 0
      modifies this`blocks, this`inodes, this`own, this`logged
      ensures Owned(sb, S()) && i in inodes && tot <= |data| && Advanced(old(S()), S(), i, off, data[..tot])
      ensures tot < |data| ==> DiskFull() && old(Addr(S(), i, (off + tot) / BSIZE)) == 0
      ensures OnlyInode(old(inodes), inodes, i)
      ensures Budget(old(logged), logged, datas, bits, IndOf(inodes[i]))
      ensures |datas| <= Span(off, |data|)
      ensures |bits| <= Span(off, |data|) + 1 - Count(data != [] && off % BSIZE != 0)
      ensures Largest(sb, old(S()), i, off, |data|, tot)
      ensures tot == |data| ==> Filled(sb, old(S()), S(), Wanted(i, off, tot), true)
      ensures Covers(old(blocks), old(logged), blocks, logged)
    {
      hide InUse, Owned, Addr, Advanced, IndOf, Spent, Cursor, Span, Filled, Wanted, Largest, BitsMatch, Budget, Count,
        Writing, One, OnlyInode, AllUsed, Covers;
      CoversNothing(blocks, logged);
      OwnedBits(sb, S());
      WritingStart(sb, S(), i, off, data);
      ghost var s, ind := S(), IndOf(inodes[i]);
      tot, datas, bits := 0, {}, {};
      ghost var t: nat := 0;
      SpendNothing(logged, ind, off, |data|);
      while tot < |data|
        invariant Writing(sb, s, S(), i, off, data, tot) && i in inodes && tot <= |data|
        invariant Cursor(off, |data|, tot, t) && t <= Span(off, |data|) && (t == 0 ==> tot == 0)
        invariant Spent(old(logged), logged, datas, bits, ind, IndOf(inodes[i]), t, off)
        invariant Covers(s.blocks, old(logged), blocks, logged)
      {
        ghost var mid, seen := blocks, logged;
        var ok, m, more, addr := WriteTurn(i, off, data, tot, s, t, old(logged), datas, bits, ind);
        CoversTwice(s.blocks, old(logged), mid, seen, blocks, logged);
        datas, bits, t := datas + One(addr), bits + more, t + 1;
        if !ok {
          SpentAll(old(logged), logged, datas, bits, ind, IndOf(inodes[i]), t, off, |data|);
          return;
        }
        tot := tot + m;
      }
      WritingDone(sb, s, S(), i, off, data);
      SpentAll(old(logged), logged, datas, bits, ind, IndOf(inodes[i]), t, off, |data|);
    }

    // One turn of the loop.
    method WriteTurn(i: nat, off: nat, data: seq<int>, tot: nat, ghost s: State, ghost t: nat, ghost was: set<int>,
                     ghost datas: set<int>, ghost bits: set<int>, ghost ind: int)
      returns (ok: bool, m: nat, ghost more: set<int>, ghost addr: int)
      requires Writing(sb, s, S(), i, off, data, tot) && BitsMatch(sb, s) && AllBytes(data) && tot < |data|
      requires off + |data| <= MAXFILE * BSIZE && (off % BSIZE != 0 ==> Addr(s, i, off / BSIZE) != 0)
      requires Cursor(off, |data|, tot, t) && Spent(was, logged, datas, bits, ind, IndOf(inodes[i]), t, off)
      modifies this`blocks, this`inodes, this`own, this`logged
      ensures i in inodes && tot + m <= |data| && t + 1 <= Span(off, |data|) && (t == 0 ==> tot == 0)
      ensures Spent(was, logged, datas + One(addr), bits + more, ind, IndOf(inodes[i]), t + 1, off)
      ensures ok ==> m > 0 && Writing(sb, s, S(), i, off, data, tot + m) && Cursor(off, |data|, tot + m, t + 1)
      ensures !ok ==> Owned(sb, S()) && Advanced(s, S(), i, off, data[..tot]) && OnlyInode(s.inodes, inodes, i)
      ensures !ok ==> DiskFull() && Addr(s, i, (off + tot) / BSIZE) == 0 && Largest(sb, s, i, off, |data|, tot)
      ensures Covers(old(blocks), old(logged), blocks, logged)
    {
      hide InUse, Owned, Addr, Extends, ByteAt, Advanced, IndOf, Spent, Cursor, Span, LogsFor, Count, Filled, Places,
        Wanted, Largest, BitsMatch, Covers;
      var cur := off + tot;
      m := Min(|data| - tot, BSIZE - cur % BSIZE);
      AllBytesOf(data, tot, tot + m);
      ghost var u, l, a := S(), logged, IndOf(inodes[i]);
      NextBlock(off, |data|, tot, m, t);
      ok, addr, more := WriteBlock(i, cur, data[tot..tot + m]);
      FirstKept(s, u, i, off, data[..tot], t);
      Spend(was, l, logged, datas, bits, ind, a, addr, IndOf(inodes[i]), more, t, off, Addr(u, i, cur / BSIZE));
      WantedMore(sb, s, u, S(), i, off, |data|, tot, m, ok);
      if !ok {
        AdvancedExtends(s, u, S(), i, off, data[..tot]);
        StillMissing(s, u, i, off, data[..tot], cur / BSIZE);
        return;
      }
      AdvancedTwice(s, u, S(), i, off, data[..tot], data[tot..tot + m]);
      assert data[..tot] + data[tot..tot + m] == data[..tot + m];
    }

    // The number of bytes written, or -1 if off is past the end or the range too large.
    method Writei(i: nat, off: nat, data: seq<int>) returns (r: int)
      requires Valid() && i in inodes && IsWord(off) && IsWord(|data|) && AllBytes(data)
      modifies this
      ensures Valid() && i in old(files)
      ensures r == -1 <==> off > |old(files)[i]| || off + |data| > MAXFILE * BSIZE
      ensures r == -1 ==> S() == old(S()) && files == old(files) && logged == old(logged)
      ensures r != -1 ==> 0 <= r <= |data| && files == old(files)[i := Spliced(old(files)[i], off, data[..r])]
      ensures r != -1 && r < |data| ==> DiskFull() && (off + r) / BSIZE * BSIZE >= |old(files)[i]|
      ensures r != -1 ==> Largest(sb, old(S()), i, off, |data|, r)
      ensures r == |data| ==> Filled(sb, old(S()), S(), Wanted(i, off, |data|), true)
      ensures old(logged) <= logged && |logged - old(logged)| <= WriteCost(off, |data|)
      ensures Covers(old(blocks), old(logged), blocks, logged)
      ensures InodesCovered(sb, old(dinodes), dinodes, logged)
    {
      hide InUse, Addr, ByteAt, Advanced, Owned, Budget, Holds, IndOf, OnlyInode, Spliced, Largest, Filled, Wanted,
        AllUsed, Span, Count, WriteCost, Covers;
      CoversNothing(blocks, logged);
      ghost var s := S();
      HoldsSize(sb, s, files, i, off);
      if off > inodes[i].size || !IsWord(off + |data|) { r := -1; return; }
      if off + |data| > MAXFILE * BSIZE { r := -1; return; }
      ghost var datas, bits;
      r, datas, bits := WriteLoop(i, off, data);
      if r < |data| { MissingIsPastEnd(s, files, i, (off + r) / BSIZE); }
      ghost var t, seen := S(), logged;
      Finish(s, i, off, data[..r], datas, bits, off, |data|, old(logged));
      CoversMore(s.blocks, old(logged), blocks, seen, logged);
      if r == |data| { FilledOwn(sb, s, t, S(), Wanted(i, off, |data|)); }
    }

    // The end of writei: the size and the inode's copy on disk.
    method Finish(ghost s: State, i: nat, off: nat, d: seq<int>, ghost datas: set<int>, ghost bits: set<int>,
                  ghost o: nat, ghost n: nat, ghost was: set<int>)
      requires Owned(sb, s) && Holds(s, files) && i in files && off <= |files[i]| && off + |d| <= MAXFILE * BSIZE
        && dinodes == s.inodes
      requires Owned(sb, S()) && Advanced(s, S(), i, off, d) && i in inodes && OnlyInode(s.inodes, inodes, i)
      requires Budget(was, logged, datas, bits, IndOf(inodes[i]))
      requires |datas| <= Span(o, n) && |bits| <= Span(o, n) + 1 - Count(n > 0 && o % BSIZE != 0)
      modifies this`inodes, this`dinodes, this`files, this`logged
      ensures Valid() && files == old(files)[i := Spliced(old(files)[i], off, d)] && blocks == old(blocks)
      ensures was <= logged && |logged - was| <= WriteCost(o, n) && old(logged) <= logged
      ensures InodesCovered(sb, old(dinodes), dinodes, logged)
    {
      hide InUse, Addr, ByteAt, Advanced, Owned, Budget, Holds, IndOf, Spliced, Span;
      ghost var t := S();
      Resize(sb, s, t, files, i, off, d);
      if off + |d| > inodes[i].size {
        inodes := inodes[i := inodes[i].(size := off + |d|)];
      }
      assert S() == Grown(t, i, off + |d|);
      Iupdate(i);
      SpentTotal(was, logged, datas, bits, IndOf(t.inodes[i]), i / IPB + sb.inodestart);
      files := files[i := Spliced(files[i], off, d)];
      assert dinodes == inodes;
    }

    /** filewrite on an inode, in chunks that each fit a transaction: worst is the largest
        number of distinct blocks that one chunk logged. */
    method Filewrite(i: nat, off: nat, data: seq<int>) returns (ret: int, newoff: nat, ghost worst: nat)
      requires Valid() && i in inodes && IsWord(off) && |data| < 0x8000_0000 && AllBytes(data)
      modifies this
      ensures Valid() && worst <= Reservation.MAXOPBLOCKS && i in old(files)
      ensures off <= newoff <= off + |data| && ret == if newoff == off + |data| then |data| else -1
      ensures FileNow(old(files), files, i, off, data, newoff - off)
      ensures ret == -1 ==>
        off > |old(files)[i]| || newoff + Chunk(off + |data| - newoff) > MAXFILE * BSIZE
        || DiskFull()
      ensures Wrote(sb, old(S()), |old(files)[i]|, i, off, |data|, newoff - off)
      ensures ret == -1 <==>
        data != []
        && (off > |old(files)[i]| || off + |data| > MAXFILE * BSIZE || !Holdable(sb, old(S()), i, off, |data|))
      ensures newoff > off <==>
        data != [] && off <= |old(files)[i]| && Reach(off, |data|) > 0 && Holdable(sb, old(S()), i, off, 1)
    {
      hide InUse, Owned, BitsMatch, Forward, Backward, Holds, Spliced, WriteCost, FileNow, Filled, Wanted, Holdable,
        Largest, AllUsed, Wrote, Reach;
      ghost var s := S();
      OwnedBits(sb, s);
      NothingWanted(sb, s, i, off);
      FilesKeys(s, files);
      HoldsSize(sb, s, files, i, off);
      ghost var size := |files[i]|;
      FileStart(S(), files, i, off, data);
      var done := 0;
      newoff, worst := off, 0;
      while done < |data|
        invariant Valid() && done <= |data| && newoff == off + done && i in inodes && worst <= Reservation.MAXOPBLOCKS
        invariant FileNow(old(files), files, i, off, data, done) && Filled(sb, s, S(), Wanted(i, off, done), true)
        invariant done % CHUNK == 0 || done == |data|
        invariant done > 0 ==> off <= size && off + done <= MAXFILE * BSIZE
      {
        var n1 := Chunk(|data| - done);
        HoldableSoFar(sb, s, S(), i, off, done);
        ghost var cost;
        var r;
        r, cost := WriteChunk(i, off, data, done, n1, old(files), s);
        worst := if cost > worst then cost else worst;
        if r > 0 { newoff := newoff + r; }
        if r != n1 {
          WroteSome(sb, s, size, i, off, |data|, done, n1, r);
          break;
        }
        done := done + r;
      }
      if done == |data| {
        HoldableSoFar(sb, s, S(), i, off, done);
        WroteAll(sb, s, size, i, off, |data|);
      }
      WroteMeans(sb, s, size, i, off, |data|, newoff - off);
      ret := if done == |data| then |data| else -1;
    }

    // One transaction of filewrite.
    method WriteChunk(i: nat, off: nat, data: seq<int>, done: nat, n1: nat, ghost files0: map<nat, seq<int>>,
                      ghost s: State)
      returns (r: int, ghost cost: nat)
      requires Valid() && i in inodes && IsWord(off) && AllBytes(data) && done + n1 <= |data| < 0x8000_0000
      requires n1 <= (Reservation.MAXOPBLOCKS - 1 - 1 - 2) / 2 * BSIZE && FileNow(files0, files, i, off, data, done)
      requires BitsMatch(sb, s) && Filled(sb, s, S(), Wanted(i, off, done), true)
      modifies this
      ensures Valid() && i in inodes && -1 <= r <= n1 && cost <= Reservation.MAXOPBLOCKS
      ensures FileNow(files0, files, i, off, data, if r > 0 then done + r else done)
      ensures r != n1 ==> off > |files0[i]| || off + done + n1 > MAXFILE * BSIZE || DiskFull()
      ensures r == -1 <==> off > |files0[i]| || off + done + n1 > MAXFILE * BSIZE
      ensures r != -1 ==> Holdable(sb, s, i, off, done + r) && (r < n1 ==> !Holdable(sb, s, i, off, done + r + 1))
      ensures r == n1 ==> Filled(sb, s, S(), Wanted(i, off, done + n1), true)
    {
      hide InUse, Owned, BitsMatch, Forward, Backward, Holds, Spliced, WriteCost, Filled, Wanted, Holdable, AllUsed;
      logged := {};
      ghost var t := S();
      OwnedBits(sb, t);
      HoldsSize(sb, S(), files, i, off + done);
      SplicedLength(files0, files, i, off, data, done);
      AllBytesOf(data, done, done + n1);
      ghost var g := files;
      r := Writei(i, off + done, data[done..done + n1]);
      assert logged - {} == logged;
      cost := |logged|;
      ChunkBound(off + done, n1);
      FilesKeys(S(), files);
      if r >= 0 {
        More(files0, g, i, off, data, done, n1, r);
        HoldableTwice(sb, s, t, i, off, done, r);
        HoldableTwice(sb, s, t, i, off, done, r + 1);
      }
      if r == n1 {
        FilledTwice(sb, s, t, S(), Wanted(i, off, done), Wanted(i, off + done, n1), true);
        WantedTwice(i, off, done, n1);
      }
    }

    method Step(op: Op) returns (reply: Reply)
      requires Valid() && Legal(op)
      modifies this
      ensures Valid() && files == Act(old(files), op, reply) && Faithful(sb, old(S()), old(files), op, reply)
    {
      hide InUse, Owned, BitsMatch, Holds, Spliced, WriteCost, Without, AllUsed, Largest, Filled, Wanted;
      reply := Reply(-1, []);
      FilesKeys(S(), files);
      match op
      case Write(i, off, data) =>
        if i in inodes {
          var r := Writei(i, off, data);
          reply := Reply(r, []);
        }
      case Read(i, off, n) =>
        if i in inodes {
          var got := Readi(i, off, n);
          reply := Reply(|got|, got);
        }
      case Trunc(i) =>
        if i in inodes {
          Itrunc(i);
          reply := Reply(0, []);
        }
    }

    /** Inodes, block maps and bitmap refine flat files: over any run, full disk or not,
        the files are what plain byte sequences would be. */
    method Execute(ops: seq<Op>) returns (replies: seq<Reply>, ghost states: seq<State>)
      requires Valid() && forall k :: 0 <= k < |ops| ==> Legal(ops[k])
      modifies this
      ensures Valid() && |replies| == |ops| && files == Run(old(files), ops, replies)
      ensures |states| == |ops| + 1 && states[0] == old(S()) && states[|ops|] == S()
      ensures forall k :: 0 <= k < |ops| ==> Explained(sb, old(files), states, ops, replies, k)
    {
      hide Owned, Holds, Act, Faithful;
      replies, states := [], [S()];
      for k := 0 to |ops|
        invariant Valid() && |replies| == k && files == Run(old(files), ops[..k], replies)
        invariant |states| == k + 1 && states[0] == old(S()) && states[k] == S()
        invariant forall j :: 0 <= j < k ==> Explained(sb, old(files), states, ops, replies, j)
      {
        var reply := Step(ops[k]);
        assert ops[..k + 1][..k] == ops[..k] && (replies + [reply])[..k] == replies;
        forall j | 0 <= j <= k ensures Explained(sb, old(files), states + [S()], ops, replies + [reply], j) {
          assert j < k ==> Explained(sb, old(files), states, ops, replies, j);
          assert (replies + [reply])[..j] == replies[..j];
        }
        replies, states := replies + [reply], states + [S()];
      }
      assert ops[..|ops|] == ops;
    }
  }

  // The k-th reply of a run is what the files and the free blocks before it call for.
  ghost predicate Explained(sb: Super, files: map<nat, seq<int>>, states: seq<State>, ops: seq<Op>,
      replies: seq<Reply>, k: nat) {
    && k < |ops| && k < |replies| && k + 1 < |states|
    && Faithful(sb, states[k], Run(files, ops[..k], replies[..k]), ops[k], replies[k])
  }

  // The first k bytes of data are at off.
  ghost predicate FileNow(files: map<nat, seq<int>>, files': map<nat, seq<int>>, i: nat, off: nat, data: seq<int>,
      k: nat) {
    && i in files && k <= |data|
    && if k == 0 then files' == files else off <= |files[i]| && files' == files[i := Spliced(files[i], off, data[..k])]
  }

  lemma FileStart(s: State, files: map<nat, seq<int>>, i: nat, off: nat, data: seq<int>)
    requires Holds(s, files) && i in s.inodes
    ensures FileNow(files, files, i, off, data, 0)
  {
  }

  // What has been written ends inside the file.
  lemma SplicedLength(files: map<nat, seq<int>>, g: map<nat, seq<int>>, i: nat, off: nat, data: seq<int>, k: nat)
    requires FileNow(files, g, i, off, data, k)
    ensures i in g && (k > 0 ==> off + k <= |g[i]|) && (k == 0 ==> g[i] == files[i]) && (k > 0 ==> off <= |files[i]|)
  {
  }

  // At most three blocks' worth at a time.
  const CHUNK: nat := (Reservation.MAXOPBLOCKS - 1 - 1 - 2) / 2 * BSIZE

  function Chunk(n: int): int { if n > CHUNK then CHUNK else n }

  // A chunk that would end past the largest file is refused whole: this much of n bytes is not.
  function Reach(off: int, n: int): int {
    if off + n <= MAXFILE * BSIZE then n else (MAXFILE * BSIZE - off) / CHUNK * CHUNK
  }

  /** Of n bytes at off of a file of the given size, filewrite writes the first w: none past the end
      of the file, and else as many as can be held of those within reach. */
  ghost predicate Wrote(sb: Super, s: State, size: nat, i: nat, off: nat, n: nat, w: int) {
    if off > size then w == 0 else Reach(off, n) >= 0 && Largest(sb, s, i, off, Reach(off, n), w)
  }

  // A chunk at done was cut short.
  lemma WroteSome(sb: Super, s: State, size: nat, i: nat, off: nat, n: nat, done: nat, n1: nat, r: int)
    requires size <= MAXFILE * BSIZE && done < n && n1 == Chunk(n - done) && done % CHUNK == 0 && -1 <= r < n1
    requires done > 0 ==> off <= size && off + done <= MAXFILE * BSIZE
    requires r == -1 <==> off > size || off + done + n1 > MAXFILE * BSIZE
    requires Holdable(sb, s, i, off, done)
    requires r != -1 ==> Holdable(sb, s, i, off, done + r) && !Holdable(sb, s, i, off, done + r + 1)
    ensures Wrote(sb, s, size, i, off, n, if r > 0 then done + r else done)
  {
    hide Holdable;
    if off <= size {
      var k := done / CHUNK;
      assert done == k * CHUNK;
      ReachIs(off, n, done, n1, k);
    }
  }

  lemma ReachIs(off: nat, n: nat, done: nat, n1: nat, k: nat)
    requires off + done <= MAXFILE * BSIZE && done < n && n1 == Chunk(n - done) && done == k * CHUNK
    ensures if off + done + n1 > MAXFILE * BSIZE then Reach(off, n) == done else Reach(off, n) >= done + n1
  {
    assert CHUNK == 3072 && MAXFILE * BSIZE == 274432;
    var room := 274432 - off;
    if off + n > 274432 {
      if done + n1 > room {
        assert 3072 * k <= room < 3072 * k + 3072;
        assert room / 3072 == k;
      } else {
        assert n1 == 3072 && 3072 * k + 3072 <= room;
        assert room / 3072 >= k + 1;
      }
    }
  }

  lemma WroteAll(sb: Super, s: State, size: nat, i: nat, off: nat, n: nat)
    requires Holdable(sb, s, i, off, n) && size <= MAXFILE * BSIZE
    requires n > 0 ==> off <= size && off + n <= MAXFILE * BSIZE
    ensures Wrote(sb, s, size, i, off, n, n)
  {
    hide Holdable;
  }

  // When all of it is written, and when some of it is.
  lemma WroteMeans(sb: Super, s: State, size: nat, i: nat, off: nat, n: nat, w: int)
    requires Wrote(sb, s, size, i, off, n, w) && size <= MAXFILE * BSIZE
    ensures 0 <= w <= n
    ensures w < n <==> n > 0 && (off > size || off + n > MAXFILE * BSIZE || !Holdable(sb, s, i, off, n))
    ensures w > 0 <==> n > 0 && off <= size && Reach(off, n) > 0 && Holdable(sb, s, i, off, 1)
  {
    hide Holdable;
    if off <= size {
      if w < n && Holdable(sb, s, i, off, n) { HoldableLess(sb, s, i, off, n, w + 1); }
      if w > 0 { HoldableLess(sb, s, i, off, w, 1); }
    }
  }

  lemma FilesKeys(s: State, files: map<nat, seq<int>>)
    requires Holds(s, files)
    ensures files.Keys == s.inodes.Keys
  {
  }

  /** A chunk of filewrite never logs more blocks than one operation may. */
  lemma ChunkBound(off: nat, n: nat)
    requires n <= (Reservation.MAXOPBLOCKS - 1 - 1 - 2) / 2 * BSIZE
    ensures WriteCost(off, n) <= Reservation.MAXOPBLOCKS
  {
    var q, o := off / BSIZE, off % BSIZE;
    assert off == q * BSIZE + o;
    if n > 0 { assert (off + n - 1) / BSIZE == q + (o + n - 1) / BSIZE; }
  }

  lemma SplicedTwice(f: seq<int>, off: nat, d: seq<int>, e: seq<int>)
    requires off <= |f|
    ensures Spliced(Spliced(f, off, d), off + |d|, e) == Spliced(f, off, d + e)
  {
  }

  lemma More(files: map<nat, seq<int>>, g: map<nat, seq<int>>, i: nat, off: nat, data: seq<int>, done: nat, n1: nat,
      r: nat)
    requires FileNow(files, g, i, off, data, done) && r <= n1 && done + n1 <= |data|
    requires i in g && off + done <= |g[i]|
    ensures FileNow(files, g[i := Spliced(g[i], off + done, data[done..done + n1][..r])], i, off, data, done + r)
  {
    hide Spliced;
    var e := data[done..done + n1][..r];
    assert data[..done] + e == data[..done + r];
    if r == 0 {
      SplicedEmpty(g[i], off + done);
      assert e == [] && g[i := g[i]] == g;
    } else if done > 0 {
      SplicedTwice(files[i], off, data[..done], e);
    } else {
      assert e == data[..r];
    }
  }

  lemma SplicedEmpty(f: seq<int>, off: nat)
    requires off <= |f|
    ensures Spliced(f, off, []) == f
  {
  }

  // f with d put at off, which is at most its length.
  function Spliced(f: seq<int>, off: nat, d: seq<int>): (r: seq<int>)
    requires off <= |f|
    ensures |r| == if off + |d| > |f| then off + |d| else |f|
  {
    f[..off] + d + if off + |d| < |f| then f[off + |d|..] else []
  }

  // Every block that has changed since was, when wlog had been logged, has been logged too.
  ghost predicate Covers(was: seq<seq<int>>, wlog: set<int>, now: seq<seq<int>>, nlog: set<int>) {
    wlog <= nlog && |was| == |now| && forall b :: 0 <= b < |was| && now[b] != was[b] ==> b in nlog
  }

  lemma CoversNothing(was: seq<seq<int>>, wlog: set<int>)
    ensures Covers(was, wlog, was, wlog)
  {
  }

  lemma CoversOne(was: seq<seq<int>>, wlog: set<int>, b: nat, block: seq<int>)
    requires b < |was|
    ensures Covers(was, wlog, was[b := block], wlog + {b})
  {
  }

  lemma CoversMore(was: seq<seq<int>>, wlog: set<int>, now: seq<seq<int>>, nlog: set<int>, later: set<int>)
    requires Covers(was, wlog, now, nlog) && nlog <= later
    ensures Covers(was, wlog, now, later)
  {
  }

  lemma CoversTwice(was: seq<seq<int>>, wlog: set<int>, mid: seq<seq<int>>, mlog: set<int>, now: seq<seq<int>>,
                    nlog: set<int>)
    requires Covers(was, wlog, mid, mlog) && Covers(mid, mlog, now, nlog)
    ensures Covers(was, wlog, now, nlog)
  {
    forall b | 0 <= b < |was| && now[b] != was[b] ensures b in nlog {
      if mid[b] != was[b] { assert b in mlog; }
    }
  }

  // The blocks of the inodes whose copies on disk have changed have been logged.
  ghost predicate InodesCovered(sb: Super, was: map<nat, Inode>, now: map<nat, Inode>, log: set<int>) {
    now.Keys == was.Keys && forall i: nat :: i in was && now[i] != was[i] ==> i / IPB + sb.inodestart in log
  }

  // Blocks logged by a write: data, bitmap blocks, and one each for the indirect block,
  // its bitmap block and the inode; a partial first block needs no bitmap block.
  function WriteCost(off: nat, n: nat): nat {
    2 * Span(off, n) + 3 - Count(n > 0 && off % BSIZE != 0)
  }

  ghost function Grown(s: State, i: nat, n: nat): State
    requires i in s.inodes
  {
    if n > s.inodes[i].size then s.(inodes := s.inodes[i := s.inodes[i].(size := n)]) else s
  }

  lemma HoldsSize(sb: Super, s: State, files: map<nat, seq<int>>, i: nat, off: nat)
    requires Owned(sb, s) && Holds(s, files) && i in s.inodes
    ensures i in files && |files[i]| == s.inodes[i].size <= MAXFILE * BSIZE
    ensures off <= |files[i]| && off % BSIZE != 0 ==> Addr(s, i, off / BSIZE) != 0
  {
    assert FileIs(s, i, files[i]);
    assert off / BSIZE * BSIZE + off % BSIZE == off;
  }

  lemma GrownAddr(s: State, i: nat, n: nat)
    requires i in s.inodes
    ensures Grown(s, i, n).inodes.Keys == s.inodes.Keys
    ensures forall j: nat, k: nat :: Addr(Grown(s, i, n), j, k) == Addr(s, j, k)
    ensures forall j: nat, x: nat :: ByteAt(Grown(s, i, n), j, x) == ByteAt(s, j, x)
    ensures forall j :: j in s.inodes ==> IndOf(Grown(s, i, n).inodes[j]) == IndOf(s.inodes[j])
  {
  }

  lemma Resize(sb: Super, s: State, t: State, files: map<nat, seq<int>>, i: nat, off: nat, d: seq<int>)
    requires Owned(sb, s) && Holds(s, files) && i in files && off <= |files[i]| && off + |d| <= MAXFILE * BSIZE
    requires Owned(sb, t) && Advanced(s, t, i, off, d)
    ensures i in t.inodes && Owned(sb, Grown(t, i, off + |d|))
      && Holds(Grown(t, i, off + |d|), files[i := Spliced(files[i], off, d)])
  {
    hide Addr, ByteAt, InUse, Spliced, IndOf;
    var u, files' := Grown(t, i, off + |d|), files[i := Spliced(files[i], off, d)];
    GrownAddr(t, i, off + |d|);
    assert BitsMatch(sb, u) && Forward(u) && Backward(u);
    forall j | j in files' ensures FileIs(u, j, files'[j]) {
      assert FileIs(s, j, files[j]);
      if j == i { SplicedIs(s, u, files[i], i, off, d); }
    }
  }

  lemma SplicedIs(s: State, u: State, f: seq<int>, i: nat, off: nat, d: seq<int>)
    requires FileIs(s, i, f) && off <= |f| && i in u.inodes && u.inodes[i].size == |Spliced(f, off, d)|
    requires forall n: nat :: Addr(s, i, n) != 0 ==> Addr(u, i, n) != 0
    requires forall n: nat :: off / BSIZE <= n && n * BSIZE < off + |d| ==> Addr(u, i, n) != 0
    requires forall x: nat :: ByteAt(u, i, x) == Over(x, off, d, ByteAt(s, i, x))
    ensures FileIs(u, i, Spliced(f, off, d))
  {
    hide Addr, ByteAt;
    forall n: nat | n * BSIZE < |Spliced(f, off, d)| ensures Addr(u, i, n) != 0 {
      if n * BSIZE < |f| { assert Addr(s, i, n) != 0; } else { assert off / BSIZE <= n; }
    }
  }

  lemma SpentTotal(was: set<int>, now: set<int>, datas: set<int>, bits: set<int>, ind: int, inode: int)
    requires exists l :: Budget(was, l, datas, bits, ind) && now == l + {inode}
    ensures was <= now && |now - was| <= |datas| + |bits| + 2
  {
    var l :| Budget(was, l, datas, bits, ind) && now == l + {inode};
    var all := datas + bits + {ind, inode};
    forall b | b in now - was ensures b in all { assert b in l ==> b in datas || b in bits || b == ind; }
    Sets.SubsetSize(now - was, all);
    UnionSize(datas, bits);
    UnionSize(datas + bits, {ind, inode});
  }

  // writei has gone through t blocks and tot of n bytes.
  ghost predicate Cursor(off: nat, n: nat, tot: nat, t: nat) {
    && tot <= n && (t == 0 <==> tot == 0)
    && (tot > 0 ==> off / BSIZE + t == (off + tot + BSIZE - 1) / BSIZE && (tot == n || (off + tot) % BSIZE == 0))
  }

  // Logged in t turns; an unaligned first block was there before, and the indirect block is allocated once.
  ghost predicate Spent(was: set<int>, now: set<int>, datas: set<int>, bits: set<int>, ind0: int, ind: int, t: nat,
      off: nat) {
    && Budget(was, now, datas, bits, ind) && |datas| <= t && (ind0 != 0 ==> ind == ind0)
    && |bits| <= t - Count(t > 0 && off % BSIZE != 0) + Count(ind0 == 0 && ind != 0)
  }

  lemma SpendNothing(was: set<int>, ind: int, off: nat, n: nat)
    ensures Spent(was, was, {}, {}, ind, ind, 0, off) && Cursor(off, n, 0, 0)
  {
  }

  lemma Spend(was: set<int>, now: set<int>, now': set<int>, datas: set<int>, bits: set<int>, ind0: int, ind: int,
              addr: int, ind': int, more: set<int>, t: nat, off: nat, before: int)
    requires Spent(was, now, datas, bits, ind0, ind, t, off) && LogsFor(now, now', addr, ind', more)
      && (ind != 0 ==> ind' == ind)
    requires |more| <= Count(before == 0) + Count(ind == 0 && ind' != 0)
    requires t == 0 && off % BSIZE != 0 ==> before != 0
    ensures Spent(was, now', datas + One(addr), bits + more, ind0, ind', t + 1, off)
  {
    UnionSize(bits, more);
  }

  lemma SpentAll(was: set<int>, now: set<int>, datas: set<int>, bits: set<int>, ind0: int, ind: int, t: nat, off: nat,
      n: nat)
    requires Spent(was, now, datas, bits, ind0, ind, t, off) && t <= Span(off, n) && (t == 0 ==> n == 0)
    ensures Budget(was, now, datas, bits, ind) && |datas| <= Span(off, n)
    ensures |bits| <= Span(off, n) + 1 - Count(n > 0 && off % BSIZE != 0)
  {
  }

  // The number of blocks that n bytes at off touch.
  function Span(off: nat, n: nat): nat { if n == 0 then 0 else (off + n - 1) / BSIZE - off / BSIZE + 1 }

  function One(b: int): set<int> { if b == 0 then {} else {b} }

  // writei has put the first tot bytes of data at off, and filled exactly the places they take.
  ghost predicate Writing(sb: Super, s: State, s': State, i: nat, off: nat, data: seq<int>, tot: nat) {
    && Owned(sb, s') && i in s'.inodes && tot <= |data| && Advanced(s, s', i, off, data[..tot])
    && OnlyInode(s.inodes, s'.inodes, i) && Filled(sb, s, s', Wanted(i, off, tot), true)
  }

  lemma WritingStart(sb: Super, s: State, i: nat, off: nat, data: seq<int>)
    requires Owned(sb, s) && i in s.inodes && (off % BSIZE != 0 ==> Addr(s, i, off / BSIZE) != 0)
    ensures Writing(sb, s, s, i, off, data, 0)
  {
    hide Owned, Advanced, Filled;
    AdvancedNothing(s, i, off);
    NothingWanted(sb, s, i, off);
  }

  lemma WritingDone(sb: Super, s: State, s': State, i: nat, off: nat, data: seq<int>)
    requires Writing(sb, s, s', i, off, data, |data|) && BitsMatch(sb, s)
    ensures Owned(sb, s') && Advanced(s, s', i, off, data[..|data|]) && OnlyInode(s.inodes, s'.inodes, i)
    ensures Filled(sb, s, s', Wanted(i, off, |data|), true) && Largest(sb, s, i, off, |data|, |data|)
  {
    hide Owned, Advanced, OnlyInode, Filled, BitsMatch, Largest, Wanted;
    WantedAll(sb, s, s', i, off, |data|);
  }

  // What has been logged: data blocks, bitmap blocks and the indirect block.
  ghost predicate Budget(was: set<int>, now: set<int>, datas: set<int>, bits: set<int>, ind: int) {
    was <= now && forall b :: b in now && b !in was ==> b in datas || b in bits || (b == ind && ind != 0)
  }

  lemma {:induction false} UnionSize<T>(a: set<T>, b: set<T>)
    ensures |a + b| <= |a| + |b|
  {
    if b != {} {
      var x :| x in b;
      UnionSize(a, b - {x});
      assert a + b == a + (b - {x}) + {x};
    }
  }

  lemma AllBytesOf(data: seq<int>, lo: nat, hi: nat)
    requires AllBytes(data) && lo <= hi <= |data|
    ensures AllBytes(data[lo..hi])
  {
    forall k | 0 <= k < hi - lo ensures IsByte(data[lo..hi][k]) { assert IsByte(data[lo + k]); }
  }

  lemma AdvancedNothing(s: State, i: nat, off: nat)
    requires off % BSIZE != 0 ==> Addr(s, i, off / BSIZE) != 0
    ensures Advanced(s, s, i, off, [])
  {
    hide Addr, ByteAt;
    assert forall n: nat :: off / BSIZE <= n && n * BSIZE < off ==> n == off / BSIZE && off % BSIZE != 0;
  }

  lemma AdvancedExtends(s: State, t: State, u: State, i: nat, off: nat, d: seq<int>)
    requires Advanced(s, t, i, off, d) && Extends(t, u)
    ensures Advanced(s, u, i, off, d)
  {
    hide Addr, ByteAt;
  }

  // The first block, if the write does not start on its boundary, was there before.
  // A block that is missing after a write was missing before.
  lemma StillMissing(s: State, t: State, i: nat, off: nat, d: seq<int>, bn: nat)
    requires Advanced(s, t, i, off, d) && Addr(t, i, bn) == 0
    ensures Addr(s, i, bn) == 0
  {
  }

  // ... and so it is past the end of the file.
  lemma MissingIsPastEnd(s: State, files: map<nat, seq<int>>, i: nat, bn: nat)
    requires Holds(s, files) && i in files && Addr(s, i, bn) == 0
    ensures bn * BSIZE >= |files[i]|
  {
    assert FileIs(s, i, files[i]);
  }

  lemma FirstKept(s: State, u: State, i: nat, off: nat, d: seq<int>, t: nat)
    requires Advanced(s, u, i, off, d) && (off % BSIZE != 0 ==> Addr(s, i, off / BSIZE) != 0)
    ensures off % BSIZE != 0 ==> Addr(u, i, off / BSIZE) != 0
  {
    hide Addr, ByteAt;
  }

  lemma NextBlock(off: nat, n: nat, tot: nat, m: nat, t: nat)
    requires tot < n && m == Min(n - tot, BSIZE - (off + tot) % BSIZE) && Cursor(off, n, tot, t)
    ensures m > 0 && Cursor(off, n, tot + m, t + 1) && t + 1 <= Span(off, n) && (tot == 0 || (off + tot) % BSIZE == 0)
    ensures t == 0 ==> tot == 0
  {
    var q, o := (off + tot) / BSIZE, (off + tot) % BSIZE;
    assert off + tot == q * BSIZE + o;
  }

  function Min(a: int, b: int): int { if a < b then a else b }

  // Bytes d were put at cur of file i, allocating as needed; no other byte changed.
  ghost predicate Advanced(s: State, s': State, i: nat, cur: nat, d: seq<int>) {
    && s'.inodes.Keys == s.inodes.Keys
    && (forall j :: j in s.inodes ==> s'.inodes[j].size == s.inodes[j].size)
    && (forall j: nat, n: nat :: Addr(s, j, n) != 0 ==> Addr(s', j, n) != 0)
    && (forall j: nat, x: nat :: ByteAt(s', j, x) == if j == i then Over(x, cur, d, ByteAt(s, j, x))
         else ByteAt(s, j, x))
    && (forall n: nat :: cur / BSIZE <= n && n * BSIZE < cur + |d| ==> Addr(s', i, n) != 0)
  }

  lemma WroteBlock(sb: Super, s: State, t: State, i: nat, cur: nat, d: seq<int>)
    requires Owned(sb, t) && Extends(s, t) && Addr(t, i, cur / BSIZE) != 0 && cur % BSIZE + |d| <= BSIZE && AllBytes(d)
    ensures sb.datastart <= Addr(t, i, cur / BSIZE) < |t.blocks| && |t.blocks[Addr(t, i, cur / BSIZE)]| == BSIZE
    ensures Advanced(s, Written(t, Addr(t, i, cur / BSIZE), cur % BSIZE, d), i, cur, d)
  {
    hide Owned, Addr, ByteAt, Over;
    var bn, o := cur / BSIZE, cur % BSIZE;
    assert cur == bn * BSIZE + o;
    WrittenKeeps(sb, t, i, bn, o, d);
    forall j: nat, x: nat { WrittenBytes(sb, t, i, bn, o, d, j, x); }
    assert forall n: nat :: cur / BSIZE <= n && n * BSIZE < cur + |d| ==> n == bn;
  }

  lemma AdvancedTwice(s: State, t: State, u: State, i: nat, off: nat, d: seq<int>, e: seq<int>)
    requires Advanced(s, t, i, off, d) && Advanced(t, u, i, off + |d|, e) && (d == [] || (off + |d|) % BSIZE == 0)
    ensures Advanced(s, u, i, off, d + e)
  {
    hide Addr, ByteAt;
    forall x: nat ensures ByteAt(u, i, x) == Over(x, off, d + e, ByteAt(s, i, x)) {
      assert ByteAt(t, i, x) == Over(x, off, d, ByteAt(s, i, x));
    }
    forall n: nat | off / BSIZE <= n && n * BSIZE < off + |d + e| ensures Addr(u, i, n) != 0 {
      if n * BSIZE < off + |d| { assert Addr(t, i, n) != 0; }
    }
  }

  // A byte below the size is in an allocated block.
  lemma InFile(sb: Super, s: State, i: nat, f: seq<int>, cur: nat)
    requires Owned(sb, s) && FileIs(s, i, f) && cur < |f|
    ensures cur / BSIZE < MAXFILE && Addr(s, i, cur / BSIZE) != 0
    ensures 0 < Addr(s, i, cur / BSIZE) < |s.blocks| && |s.blocks[Addr(s, i, cur / BSIZE)]| == BSIZE
  {
    InArea(sb, s, i, cur / BSIZE);
  }

  lemma ChunkOf(s: State, i: nat, f: seq<int>, cur: nat, m: nat)
    requires FileIs(s, i, f) && cur + m <= |f| && cur % BSIZE + m <= BSIZE
    requires 0 < Addr(s, i, cur / BSIZE) < |s.blocks| && |s.blocks[Addr(s, i, cur / BSIZE)]| == BSIZE
    ensures s.blocks[Addr(s, i, cur / BSIZE)][cur % BSIZE..cur % BSIZE + m] == f[cur..cur + m]
  {
    hide Addr;
    var b := s.blocks[Addr(s, i, cur / BSIZE)][cur % BSIZE..cur % BSIZE + m];
    forall k | 0 <= k < m ensures b[k] == f[cur..cur + m][k] {
      assert (cur + k) / BSIZE == cur / BSIZE && (cur + k) % BSIZE == cur % BSIZE + k;
      assert f[cur + k] == ByteAt(s, i, cur + k);
    }
  }

  // The bytes of the files are those of their blocks, and every block below a size is there.
  ghost predicate Holds(s: State, files: map<nat, seq<int>>) {
    files.Keys == s.inodes.Keys && forall i :: i in files ==> FileIs(s, i, files[i])
  }

  ghost predicate FileIs(s: State, i: nat, f: seq<int>) {
    Dense(s, i) && |f| == s.inodes[i].size && forall x: nat :: x < |f| ==> f[x] == ByteAt(s, i, x)
  }

  // The first k block numbers of inode i are cleared.
  ghost predicate Clearing(was: map<nat, Inode>, now: map<nat, Inode>, i: nat, k: nat) {
    && i in was && i in now && |was[i].addrs| == |now[i].addrs| == NDIRECT + 1
    && (forall j :: j in was && j in now && j != i ==> now[j] == was[j])
    && (forall n :: 0 <= n <= NDIRECT ==> now[i].addrs[n] == if n < k then 0 else was[i].addrs[n])
  }

  lemma DirectAt(s: State, i: nat, k: nat)
    requires i in s.inodes && |s.inodes[i].addrs| == NDIRECT + 1 && k < NDIRECT
    ensures Addr(s, i, k) == s.inodes[i].addrs[k]
  {
  }

  lemma NoListNoAddr(s: State, i: nat, bn: nat)
    requires i in s.inodes && bn >= NDIRECT
    ensures IndOf(s.inodes[i]) == 0 ==> Addr(s, i, bn) == 0
  {
  }

  lemma ListSize(b: seq<int>)
    requires IsBlock(b)
    ensures |b| == BSIZE
  {
  }

  lemma ListedAt(s: State, i: nat, j: nat)
    requires i in s.inodes && |s.inodes[i].addrs| == NDIRECT + 1 && j < NINDIRECT
    requires 0 < IndOf(s.inodes[i]) < |s.blocks| && |s.blocks[IndOf(s.inodes[i])]| == BSIZE
    ensures Addr(s, i, NDIRECT + j) == WordAt(s.blocks[IndOf(s.inodes[i])], j)
  {
  }

  lemma GoneListed(i: nat, j: nat)
    ensures forall q: Owner :: Gone(q, i, NDIRECT, j + 1, false) <==>
      Gone(q, i, NDIRECT, j, false) || q == Data(i, NDIRECT + j)
    ensures !Gone(Data(i, NDIRECT + j), i, NDIRECT, j, false)
  {
  }

  lemma GoneList(i: nat)
    ensures forall q: Owner :: Gone(q, i, NDIRECT, NINDIRECT, true) <==>
      Gone(q, i, NDIRECT, NINDIRECT, false) || q == Ind(i)
    ensures !Gone(Ind(i), i, NDIRECT, NINDIRECT, false)
  {
  }

  lemma IndIsData(sb: Super, s: State, i: nat)
    requires Owned(sb, s) && i in s.inodes && IndOf(s.inodes[i]) != 0
    ensures sb.datastart <= IndOf(s.inodes[i]) < sb.size
  {
    assert IndOf(s.inodes[i]) in s.own;
  }

  // Without an indirect block nothing is listed.
  lemma NoList(sb: Super, s: State, s': State, i: nat)
    requires Owned(sb, s) && i in s.inodes && IndOf(s.inodes[i]) == 0 && Trimmed(sb, s, s', i, NDIRECT, 0, false)
    ensures Trimmed(sb, s, s', i, NDIRECT, NINDIRECT, true)
  {
    hide InUse;
    forall b | b in s.own ensures Gone(s.own[b], i, NDIRECT, NINDIRECT, true) <==>
      Gone(s.own[b], i, NDIRECT, 0, false) {
      assert s.own[b] != Ind(i);
      assert forall n :: NDIRECT <= n ==> Addr(s, i, n) == 0;
    }
  }

  lemma AllCleared(was: map<nat, Inode>, now: map<nat, Inode>, i: nat)
    requires Clearing(was, now, i, NDIRECT + 1) && now.Keys == was.Keys && now[i].size == 0
    ensures now == was[i := Inode(NoBlocks(), 0)]
  {
    assert now[i].addrs == NoBlocks();
  }

  lemma Truncation(sb: Super, s: State, t: State, i: nat, files: map<nat, seq<int>>)
    requires Owned(sb, s) && Holds(s, files) && i in s.inodes && Trimmed(sb, s, t, i, NDIRECT, NINDIRECT, true)
    ensures Owned(sb, Truncated(s, t, i)) && Holds(Truncated(s, t, i), files[i := []]) && Without(s.own, t.own, i)
  {
    hide InUse, Owned, Addr, ByteAt, Holds;
    TruncatedKeeps(sb, s, t, i);
    TruncatedHolds(sb, s, Truncated(s, t, i), i, files);
  }

  // i's blocks, and no others, have no owner any more.
  ghost predicate Without(own: map<int, Owner>, own': map<int, Owner>, i: nat) {
    && (forall b :: b in own' <==> b in own && own[b].inum != i)
    && (forall b :: b in own' ==> own'[b] == own[b])
  }

  lemma OwnedInode(sb: Super, s: State, i: nat)
    requires Owned(sb, s) && i in s.inodes
    ensures InodeOk(s.inodes[i])
  {
  }

  lemma TruncatedHolds(sb: Super, s: State, t: State, i: nat, files: map<nat, seq<int>>)
    requires Owned(sb, s) && Holds(s, files) && i in s.inodes && t.inodes == s.inodes[i := Inode(NoBlocks(), 0)]
    requires forall j: nat, x: nat :: ByteAt(t, j, x) == if j == i then 0 else ByteAt(s, j, x)
    requires forall j: nat, n: nat :: j != i ==> Addr(t, j, n) == Addr(s, j, n)
    ensures Holds(t, files[i := []])
  {
    hide Addr, ByteAt;
    var files' := files[i := []];
    forall j | j in files' ensures FileIs(t, j, files'[j]) {
      if j != i { assert FileIs(s, j, files[j]); }
    }
  }

  ghost predicate OnlyInode(was: map<nat, Inode>, now: map<nat, Inode>, i: nat) {
    now.Keys == was.Keys && forall j :: j in was && j != i ==> now[j] == was[j]
  }

  function Count(b: bool): nat { if b then 1 else 0 }

  ghost predicate AllUsed(sb: Super, blocks: seq<seq<int>>) {
    SuperOk(sb) && BlocksOk(sb, blocks) && forall c: nat :: c < sb.size ==> InUse(sb, blocks, c)
  }

  /** bmap found or made block bn of inode i, or the disk is full; no byte of any file changed. */
  ghost predicate BmapDid(sb: Super, s: State, s': State, i: nat, bn: nat, was: set<int>, now: set<int>, addr: int,
      bits: set<int>) {
    && Owned(sb, s') && Extends(s, s') && i in s.inodes && OnlyInode(s.inodes, s'.inodes, i)
    && addr == Addr(s', i, bn) && (Addr(s, i, bn) != 0 ==> s' == s && now == was)
    && (addr == 0 ==> AllUsed(sb, s'.blocks))
    && LogsFor(was, now, addr, IndOf(s'.inodes[i]), bits)
    && (IndOf(s.inodes[i]) != 0 ==> IndOf(s'.inodes[i]) == IndOf(s.inodes[i]))
    && |bits| <= Count(Addr(s, i, bn) == 0) + Count(IndOf(s.inodes[i]) == 0 && IndOf(s'.inodes[i]) != 0)
    && Filled(sb, s, s', Places(i, bn, bn + 1), addr != 0)
  }

  lemma OwnedBits(sb: Super, s: State)
    requires Owned(sb, s)
    ensures BitsMatch(sb, s)
  {
  }

  lemma DirectPlace(i: nat, bn: nat)
    ensures bn < NDIRECT ==> Places(i, bn, bn + 1) == {Data(i, bn)}
    ensures bn >= NDIRECT ==> Places(i, bn, bn + 1) == {Ind(i)} + {Data(i, bn)}
  {
  }

  // The indirect block is there, or has just been given.
  lemma ListPlaced(sb: Super, s: State, i: nat)
    requires Owned(sb, s) && i in s.inodes && IndOf(s.inodes[i]) != 0
    ensures Filled(sb, s, s, {Ind(i)}, true)
  {
    EmptyPlace(sb, s, Ind(i));
    FilledAlready(sb, s, {Ind(i)});
  }

  lemma DataPlaced(sb: Super, s: State, i: nat, bn: nat)
    requires Owned(sb, s) && i in s.inodes && Addr(s, i, bn) != 0
    ensures Filled(sb, s, s, {Data(i, bn)}, true)
  {
    EmptyPlace(sb, s, Data(i, bn));
    FilledAlready(sb, s, {Data(i, bn)});
  }

  lemma NoListNoPlace(sb: Super, s: State, i: nat, bn: nat)
    requires Filled(sb, s, s, {Ind(i)}, false) && bn >= NDIRECT
    ensures Filled(sb, s, s, Places(i, bn, bn + 1), false)
  {
    DirectPlace(i, bn);
    ShortPlaces(sb, s, s, {Ind(i)}, Places(i, bn, bn + 1));
  }

  // What is logged for one block: itself, the indirect block, and bitmap blocks.
  ghost predicate LogsFor(was: set<int>, now: set<int>, addr: int, ind: int, bits: set<int>) {
    was <= now && forall b :: b in now && b !in was ==> b in bits || (b == addr && addr != 0) || (b == ind && ind != 0)
  }

  lemma ExtendsNothing(s: State)
    ensures Extends(s, s)
  {
  }

  lemma ExtendsTwice(s: State, t: State, u: State)
    requires Extends(s, t) && Extends(t, u)
    ensures Extends(s, u)
  {
    hide Addr, ByteAt;
  }

  lemma IndInArea(sb: Super, s: State, i: nat)
    requires Owned(sb, s) && i in s.inodes && IndOf(s.inodes[i]) != 0
    ensures 0 < IndOf(s.inodes[i]) < |s.blocks| && IsBlock(s.blocks[IndOf(s.inodes[i])])
  {
    assert IndOf(s.inodes[i]) in s.own;
  }

  // Bit bi of the bitmap block that starts at b.
  lemma BitAt(sb: Super, blocks: seq<seq<int>>, b: nat, bi: nat)
    requires SuperOk(sb) && BlocksOk(sb, blocks) && b % BPB == 0 && bi < BPB && b + bi < sb.size
    ensures bi / 8 < |blocks[Bblock(sb, b)]| && blocks[Bblock(sb, b)][bi / 8] >= 0
    ensures InUse(sb, blocks, b + bi) == Bit(blocks[Bblock(sb, b)][bi / 8], bi % 8)
  {
    BitPlace(b, bi);
    assert IsBlock(blocks[Bblock(sb, b)]) && IsByte(blocks[Bblock(sb, b)][bi / 8]);
  }

  lemma BitPlace(b: nat, bi: nat)
    requires b % BPB == 0 && bi < BPB
    ensures (b + bi) / BPB == b / BPB && Bbyte(b + bi) == bi / 8 && (b + bi) % 8 == bi % 8
  {
    var q := b / BPB;
    assert b + bi == BPB * q + bi;
    assert (b + bi) % BPB == bi;
    Octet(1024 * q, bi);
  }

  lemma Octet(q: nat, r: nat)
    ensures (8 * q + r) % 8 == r % 8
  {
  }

  // What a file system is used for, as operations on files that are flat sequences of bytes.
  datatype Op = Write(i: nat, off: nat, data: seq<int>) | Read(i: nat, off: nat, n: nat) | Trunc(i: nat)

  datatype Reply = Reply(r: int, got: seq<int>)

  predicate Legal(op: Op) {
    match op
    case Write(_, off, data) => IsWord(off) && IsWord(|data|) && AllBytes(data)
    case Read(_, off, n) => IsWord(off) && IsWord(n)
    case Trunc(_) => true
  }

  function Act(files: map<nat, seq<int>>, op: Op, reply: Reply): map<nat, seq<int>> {
    match op
    case Write(i, off, data) =>
      if i in files && 0 <= reply.r <= |data| && off <= |files[i]| then
        files[i := Spliced(files[i], off, data[..reply.r])]
      else files
    case Read(_, _, _) => files
    case Trunc(i) => if i in files then files[i := []] else files
  }

  // The replies that the bytes of the files and the blocks of s call for.  A write gets as far as there are
  // blocks for it, and is cut short only past the blocks that the file had.
  ghost predicate Faithful(sb: Super, s: State, files: map<nat, seq<int>>, op: Op, reply: Reply) {
    match op
    case Write(i, off, data) => reply.got == [] &&
      if i !in files || off > |files[i]| || off + |data| > MAXFILE * BSIZE then reply.r == -1
      else
        && Largest(sb, s, i, off, |data|, reply.r)
        && (reply.r < |data| ==> (off + reply.r) / BSIZE * BSIZE >= |files[i]|)
    case Read(i, off, n) =>
      && reply.got == (if i !in files || off > |files[i]| || !IsWord(off + n) then []
        else files[i][off..Min(off + n, |files[i]|)])
      && reply.r == if i in files then |reply.got| else -1
    case Trunc(i) => reply == Reply(if i in files then 0 else -1, [])
  }

  function Run(files: map<nat, seq<int>>, ops: seq<Op>, replies: seq<Reply>): map<nat, seq<int>>
    requires |ops| == |replies|
  {
    if ops == [] then files
    else Act(Run(files, ops[..|ops| - 1], replies[..|ops| - 1]), ops[|ops| - 1], replies[|ops| - 1])
  }

  lemma BlankBit(sb: Super, blocks: seq<seq<int>>, c: nat)
    requires SuperOk(sb) && BlocksOk(sb, blocks) && c < sb.size && blocks[Bblock(sb, c)] == Zeros()
    ensures !InUse(sb, blocks, c)
  {
    ZeroBit(c % 8);
  }

  lemma {:induction false} ZeroBit(k: nat)
    ensures !Bit(0, k)
  {
    if k > 0 { ZeroBit(k - 1); }
  }
}
