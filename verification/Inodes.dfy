/** Inodes, their block maps and the free bitmap as they lie in the blocks of the
    file system (kernel/fs.h, kernel/fs.c). */
module Inodes {
  import opened Bytes

  const BSIZE: nat := 1024
  const NDIRECT: nat := 12
  const NINDIRECT: nat := 256
  const MAXFILE: nat := 268
  const BPB: nat := 8192             // bitmap bits in a block
  const IPB: nat := 16               // inodes in a block

  // The layout: the bitmap follows the inodes and the data blocks follow the bitmap.
  datatype Super = Super(size: nat, inodestart: nat, bmapstart: nat, datastart: nat)

  predicate SuperOk(sb: Super) {
    0 < sb.inodestart < sb.bmapstart && sb.bmapstart + (sb.size - 1) / BPB < sb.datastart <= sb.size && IsWord(sb.size)
  }

  // NDIRECT block numbers and that of the indirect block; 0 is none.
  datatype Inode = Inode(addrs: seq<int>, size: int)

  datatype Owner = Data(inum: nat, bn: nat) | Ind(inum: nat)

  datatype State = State(blocks: seq<seq<int>>, inodes: map<nat, Inode>, own: map<int, Owner>)

  function Bbyte(b: nat): nat { b % BPB / 8 }

  // The bitmap block that holds the bit of block b.
  function Bblock(sb: Super, b: nat): (k: nat)
    ensures SuperOk(sb) && b < sb.size ==> k < sb.datastart
  {
    sb.bmapstart + b / BPB
  }

  predicate IsBlock(b: seq<int>) { |b| == BSIZE && AllBytes(b) }

  predicate BlocksOk(sb: Super, blocks: seq<seq<int>>) {
    |blocks| == sb.size && forall b :: 0 <= b < |blocks| ==> IsBlock(blocks[b])
  }

  // The bitmap's bit for block b.
  predicate InUse(sb: Super, blocks: seq<seq<int>>, b: nat)
    requires SuperOk(sb) && BlocksOk(sb, blocks) && b < sb.size
  {
    assert IsByte(blocks[Bblock(sb, b)][Bbyte(b)]);
    Bit(blocks[Bblock(sb, b)][Bbyte(b)], b % 8)
  }

  predicate InodeOk(ip: Inode) {
    |ip.addrs| == NDIRECT + 1 && 0 <= ip.size <= MAXFILE * BSIZE && forall i :: 0 <= i < |ip.addrs| ==> 0 <= ip.addrs[i]
  }

  function IndOf(ip: Inode): int { if |ip.addrs| == NDIRECT + 1 then ip.addrs[NDIRECT] else 0 }

  // The number of the block that holds block bn of the file, or 0.
  function AddrOf(blocks: seq<seq<int>>, ip: Inode, bn: nat): int {
    if |ip.addrs| != NDIRECT + 1 || bn >= MAXFILE then 0
    else if bn < NDIRECT then ip.addrs[bn]
    else
      var a := IndOf(ip);
      if 0 < a < |blocks| && |blocks[a]| == BSIZE then WordAt(blocks[a], bn - NDIRECT) else 0
  }

  function Addr(s: State, inum: nat, bn: nat): int {
    if inum in s.inodes then AddrOf(s.blocks, s.inodes[inum], bn) else 0
  }

  ghost predicate BitsMatch(sb: Super, s: State) {
    && SuperOk(sb) && BlocksOk(sb, s.blocks)
    && (forall b: nat :: b < sb.size ==> (InUse(sb, s.blocks, b) <==> b < sb.datastart || b in s.own))
    && (forall b :: b in s.own ==> sb.datastart <= b < sb.size)
  }

  // Every block an inode names is its own ...
  ghost predicate Forward(s: State) {
    && (forall i, bn :: i in s.inodes && Addr(s, i, bn) != 0 ==>
         Addr(s, i, bn) in s.own && s.own[Addr(s, i, bn)] == Data(i, bn))
    && (forall i :: i in s.inodes && IndOf(s.inodes[i]) != 0 ==>
         IndOf(s.inodes[i]) in s.own && s.own[IndOf(s.inodes[i])] == Ind(i))
  }

  // ... and every owned block is named where its owner says.
  ghost predicate Backward(s: State) {
    forall b :: b in s.own ==> s.own[b].inum in s.inodes && match s.own[b]
      case Data(i, bn) => Addr(s, i, bn) == b
      case Ind(i) => IndOf(s.inodes[i]) == b
  }

  /** The bitmap marks exactly the blocks below datastart and the blocks of the inodes,
      and no block has two owners. */
  ghost predicate Owned(sb: Super, s: State) {
    BitsMatch(sb, s) && (forall i :: i in s.inodes ==> InodeOk(s.inodes[i])) && Forward(s) && Backward(s)
  }

  // Every block below the file's size is allocated.
  ghost predicate Dense(s: State, i: nat) {
    i in s.inodes && forall bn: nat :: bn * BSIZE < s.inodes[i].size ==> Addr(s, i, bn) != 0
  }

  // Byte x of file i; what is not allocated reads as 0.
  function ByteAt(s: State, i: nat, x: nat): int {
    var a := Addr(s, i, x / BSIZE);
    if 0 < a < |s.blocks| && |s.blocks[a]| == BSIZE then s.blocks[a][x % BSIZE] else 0
  }

  function Zeros(): (z: seq<int>)
    ensures IsBlock(z)
  {
    seq(BSIZE, _ => 0)
  }

  // The bitmap with block b's bit changed.
  function Marked(sb: Super, blocks: seq<seq<int>>, b: nat, on: bool): (r: seq<seq<int>>)
    requires SuperOk(sb) && BlocksOk(sb, blocks) && b < sb.size
  {
    var k := Bblock(sb, b);
    assert IsByte(blocks[k][Bbyte(b)]);
    var x := blocks[k][Bbyte(b)];
    blocks[k := blocks[k][Bbyte(b) := if on then SetBit(x, b % 8) else ClearBit(x, b % 8)]]
  }

  lemma MarkedIs(sb: Super, blocks: seq<seq<int>>, b: nat, on: bool)
    requires SuperOk(sb) && BlocksOk(sb, blocks) && b < sb.size
    ensures BlocksOk(sb, Marked(sb, blocks, b, on))
    ensures forall c: nat :: c < sb.size ==> InUse(sb, Marked(sb, blocks, b, on), c) == if c == b then on
      else InUse(sb, blocks, c)
    ensures forall c :: 0 <= c < |blocks| && c != Bblock(sb, b) ==> Marked(sb, blocks, b, on)[c] == blocks[c]
  {
    MarkedBlocks(sb, blocks, b, on);
    forall c: nat | c < sb.size ensures InUse(sb, Marked(sb, blocks, b, on), c) == if c == b then on
      else InUse(sb, blocks, c) {
      MarkedUse(sb, blocks, b, on, c);
    }
  }

  lemma MarkedBlocks(sb: Super, blocks: seq<seq<int>>, b: nat, on: bool)
    requires SuperOk(sb) && BlocksOk(sb, blocks) && b < sb.size
    ensures BlocksOk(sb, Marked(sb, blocks, b, on))
  {
    var k := Bblock(sb, b);
    assert IsBlock(blocks[k]) && IsByte(blocks[k][Bbyte(b)]);
    var x := blocks[k][Bbyte(b)];
    assert Mask(4) == 16;
    SetBits(x, b % 8, 0, 8);
    ClearBits(x, b % 8, 0);
    var r := Marked(sb, blocks, b, on);
    assert IsBlock(r[k]);
    forall c | 0 <= c < |r| ensures IsBlock(r[c]) { assert IsBlock(blocks[c]); }
  }

  lemma MarkedUse(sb: Super, blocks: seq<seq<int>>, b: nat, on: bool, c: nat)
    requires SuperOk(sb) && BlocksOk(sb, blocks) && b < sb.size && BlocksOk(sb, Marked(sb, blocks, b, on))
      && c < sb.size
    ensures InUse(sb, Marked(sb, blocks, b, on), c) == if c == b then on else InUse(sb, blocks, c)
  {
    hide Bit, SetBit, ClearBit;
    var k := Bblock(sb, b);
    assert IsBlock(blocks[k]) && IsByte(blocks[k][Bbyte(b)]);
    var x := blocks[k][Bbyte(b)];
    assert Mask(4) == 16;
    SetBits(x, b % 8, c % 8, 8);
    ClearBits(x, b % 8, c % 8);
    if c / BPB == b / BPB && Bbyte(c) == Bbyte(b) && c % 8 == b % 8 { SameBit(b, c); }
  }

  lemma SameBit(b: nat, c: nat)
    requires c / BPB == b / BPB && Bbyte(c) == Bbyte(b) && c % 8 == b % 8
    ensures c == b
  {
    assert b % BPB == 8 * (b % BPB / 8) + b % 8 && c % BPB == 8 * (c % BPB / 8) + c % 8;
  }

  // What balloc does to the blocks: mark b and zero it.
  function Taken(sb: Super, blocks: seq<seq<int>>, b: nat): seq<seq<int>>
    requires SuperOk(sb) && BlocksOk(sb, blocks) && b < sb.size
  {
    Marked(sb, blocks, b, true)[b := Zeros()]
  }

  lemma TakenIs(sb: Super, blocks: seq<seq<int>>, b: nat)
    requires SuperOk(sb) && BlocksOk(sb, blocks) && sb.datastart <= b < sb.size
    ensures BlocksOk(sb, Taken(sb, blocks, b))
    ensures forall c: nat :: c < sb.size ==> InUse(sb, Taken(sb, blocks, b), c) == (c == b || InUse(sb, blocks, c))
    ensures forall c :: sb.datastart <= c < |blocks| && c != b ==> Taken(sb, blocks, b)[c] == blocks[c]
    ensures Taken(sb, blocks, b)[b] == Zeros()
  {
    hide InUse, Marked, Bblock;
    var m := Marked(sb, blocks, b, true);
    MarkedIs(sb, blocks, b, true);
    DataWrite(sb, m, b, Zeros());
    forall c: nat | c < sb.size ensures InUse(sb, Taken(sb, blocks, b), c) == (c == b || InUse(sb, blocks, c)) {
      assert InUse(sb, m[b := Zeros()], c) == InUse(sb, m, c);
    }
  }

  // A write to a data block does not show in the bitmap.
  lemma DataWrite(sb: Super, blocks: seq<seq<int>>, b: nat, bytes: seq<int>)
    requires SuperOk(sb) && BlocksOk(sb, blocks) && sb.datastart <= b < sb.size && IsBlock(bytes)
    ensures BlocksOk(sb, blocks[b := bytes])
    ensures forall c: nat :: c < sb.size ==> InUse(sb, blocks[b := bytes], c) == InUse(sb, blocks, c)
  {
    hide Bit, Bbyte, Bblock;
    var r := blocks[b := bytes];
    forall c | 0 <= c < |blocks| ensures IsBlock(r[c]) { assert IsBlock(blocks[c]); }
  }

  // A free block of the data area.
  ghost predicate Free(sb: Super, s: State, b: nat) { sb.datastart <= b < sb.size && b !in s.own }

  function Renamed(ip: Inode, k: nat, b: int): Inode
    requires k < |ip.addrs|
  {
    ip.(addrs := ip.addrs[k := b])
  }

  // Block numbers and bytes that were there are there still.
  ghost predicate Extends(s: State, s': State) {
    && s'.inodes.Keys == s.inodes.Keys
    && (forall i :: i in s.inodes ==> s'.inodes[i].size == s.inodes[i].size)
    && (forall i: nat, bn: nat :: Addr(s, i, bn) != 0 ==> Addr(s', i, bn) == Addr(s, i, bn))
    && (forall i: nat, x: nat :: ByteAt(s', i, x) == ByteAt(s, i, x))
  }

  // b became a block of an inode, at a place where there was none.
  ghost predicate Given(sb: Super, s: State, s': State, b: nat, o: Owner) {
    && Free(sb, s, b) && s'.own == s.own[b := o] && o.inum in s.inodes && s'.inodes.Keys == s.inodes.Keys
    && (forall j :: j in s'.inodes ==> InodeOk(s'.inodes[j]) && s'.inodes[j].size == s.inodes[j].size)
    && (forall j: nat, n: nat :: Addr(s', j, n) == if o == Data(j, n) then b else Addr(s, j, n))
    && (forall j :: j in s.inodes ==> IndOf(s'.inodes[j]) == if o == Ind(j) then b else IndOf(s.inodes[j]))
    && (match o case Data(j, n) => Addr(s, j, n) == 0 case Ind(j) => IndOf(s.inodes[j]) == 0)
    && |s'.blocks| == |s.blocks|
    && (forall c :: c in s.own && s.own[c].Data? && 0 <= c < |s.blocks| ==> s'.blocks[c] == s.blocks[c])
    && (b < |s'.blocks| ==> s'.blocks[b] == Zeros())
  }

  lemma GivenOwned(sb: Super, s: State, s': State, b: nat, o: Owner)
    requires Owned(sb, s) && Given(sb, s, s', b, o) && BitsMatch(sb, s')
    ensures Owned(sb, s')
  {
    hide InUse, Addr, IndOf;
  }

  lemma GivenExtends(sb: Super, s: State, s': State, b: nat, o: Owner)
    requires Owned(sb, s) && Given(sb, s, s', b, o)
    ensures Extends(s, s')
  {
    hide InUse, Addr, IndOf;
    forall i: nat, x: nat ensures ByteAt(s', i, x) == ByteAt(s, i, x) {
      var a := Addr(s, i, x / BSIZE);
      assert a != 0 ==> i in s.inodes by { NoInode(s, i, x / BSIZE); }
    }
  }

  lemma NoInode(s: State, i: nat, bn: nat)
    ensures Addr(s, i, bn) != 0 ==> i in s.inodes && bn < MAXFILE
  {
  }

  lemma TakenBits(sb: Super, s: State, b: nat, o: Owner, blocks: seq<seq<int>>, inodes: map<nat, Inode>)
    requires BitsMatch(sb, s) && Free(sb, s, b) && BlocksOk(sb, blocks)
    requires forall c: nat :: c < sb.size ==> InUse(sb, blocks, c) == (c == b || InUse(sb, s.blocks, c))
    ensures BitsMatch(sb, State(blocks, inodes, s.own[b := o]))
  {
    hide InUse;
  }

  // bmap names b as direct block bn, or as the indirect block, of inode i.
  ghost function Named(sb: Super, s: State, i: nat, k: nat, b: nat): State
    requires Owned(sb, s) && i in s.inodes && k <= NDIRECT && b < sb.size
  {
    State(Taken(sb, s.blocks, b), s.inodes[i := Renamed(s.inodes[i], k, b)],
      s.own[b := if k < NDIRECT then Data(i, k) else Ind(i)])
  }

  lemma NamedAddr(sb: Super, s: State, i: nat, k: nat, b: nat, j: nat, n: nat)
    requires Owned(sb, s) && i in s.inodes && k <= NDIRECT && Free(sb, s, b) && s.inodes[i].addrs[k] == 0
    ensures Addr(Named(sb, s, i, k, b), j, n) == if j == i && n == k && k < NDIRECT then b else Addr(s, j, n)
    ensures k < NDIRECT ==> Addr(s, i, k) == 0
  {
    hide InUse, Taken;
    TakenIs(sb, s.blocks, b);
    if j in s.inodes {
      var a := IndOf(s.inodes[j]);
      assert a != 0 ==> a in s.own;
      if n < MAXFILE && n >= NDIRECT && j == i && k == NDIRECT { ZeroWord(n - NDIRECT); }
    }
  }

  lemma ZeroWord(k: nat)
    requires k < NINDIRECT
    ensures WordAt(Zeros(), k) == 0
  {
  }

  lemma NamedGiven(sb: Super, s: State, i: nat, k: nat, b: nat)
    requires Owned(sb, s) && i in s.inodes && k <= NDIRECT && Free(sb, s, b) && s.inodes[i].addrs[k] == 0
    ensures Owned(sb, Named(sb, s, i, k, b)) && Extends(s, Named(sb, s, i, k, b))
    ensures forall j: nat, n: nat :: Addr(Named(sb, s, i, k, b), j, n) == if j == i && n == k && k < NDIRECT then b
      else Addr(s, j, n)
  {
    hide InUse, Taken, Addr, IndOf;
    var s', o := Named(sb, s, i, k, b), if k < NDIRECT then Data(i, k) else Ind(i);
    forall j: nat, n: nat { NamedAddr(sb, s, i, k, b, j, n); }
    TakenIs(sb, s.blocks, b);
    TakenBits(sb, s, b, o, s'.blocks, s'.inodes);
    NamedInd(sb, s, i, k, b);
    assert Given(sb, s, s', b, o);
    GivenOwned(sb, s, s', b, o);
    GivenExtends(sb, s, s', b, o);
  }

  lemma NamedInd(sb: Super, s: State, i: nat, k: nat, b: nat)
    requires Owned(sb, s) && i in s.inodes && k <= NDIRECT && Free(sb, s, b) && s.inodes[i].addrs[k] == 0
    ensures var s' := Named(sb, s, i, k, b);
      (k == NDIRECT ==> IndOf(s.inodes[i]) == 0) && forall j :: j in s.inodes ==>
        InodeOk(s'.inodes[j]) && IndOf(s'.inodes[j]) == if k == NDIRECT && j == i then b else IndOf(s.inodes[j])
  {
  }

  // bmap names b in entry k of inode i's indirect block.
  ghost function Listed(sb: Super, s: State, i: nat, k: nat, b: nat): State
    requires Owned(sb, s) && i in s.inodes && k < NINDIRECT && b < sb.size && 0 < IndOf(s.inodes[i]) < sb.size
    requires BlocksOk(sb, Taken(sb, s.blocks, b))
  {
    var a := IndOf(s.inodes[i]);
    var t := Taken(sb, s.blocks, b);
    assert IsBlock(t[a]);
    State(t[a := PutWord(t[a], k, b)], s.inodes, s.own[b := Data(i, NDIRECT + k)])
  }

  lemma ListedIs(sb: Super, s: State, i: nat, k: nat, b: nat)
    requires Owned(sb, s) && i in s.inodes && k < NINDIRECT && Free(sb, s, b) && IndOf(s.inodes[i]) != 0
    ensures sb.datastart <= IndOf(s.inodes[i]) < sb.size && IndOf(s.inodes[i]) != b
      && BlocksOk(sb, Taken(sb, s.blocks, b))
    ensures var s', a := Listed(sb, s, i, k, b), IndOf(s.inodes[i]);
      BlocksOk(sb, s'.blocks) && IsBlock(s.blocks[a]) && s'.blocks[a] == PutWord(s.blocks[a], k, b)
        && (forall c: nat :: c < sb.size ==> InUse(sb, s'.blocks, c) == (c == b || InUse(sb, s.blocks, c)))
        && (forall c :: sb.datastart <= c < sb.size && c != a && c != b ==> s'.blocks[c] == s.blocks[c])
        && s'.blocks[b] == Zeros()
  {
    hide InUse, Taken, PutWord, IndOf;
    var a := IndOf(s.inodes[i]);
    assert a in s.own;
    TakenIs(sb, s.blocks, b);
    assert IsBlock(s.blocks[a]);
    PutWordReads(s.blocks[a], k, b, 0);
    DataWrite(sb, Taken(sb, s.blocks, b), a, PutWord(s.blocks[a], k, b));
  }

  lemma ListedAddr(sb: Super, s: State, i: nat, k: nat, b: nat, j: nat, n: nat)
    requires Owned(sb, s) && i in s.inodes && k < NINDIRECT && Free(sb, s, b) && IndOf(s.inodes[i]) != 0
    requires IndOf(s.inodes[i]) < sb.size && BlocksOk(sb, Taken(sb, s.blocks, b))
    ensures Addr(Listed(sb, s, i, k, b), j, n) == if j == i && n == NDIRECT + k then b else Addr(s, j, n)
  {
    ListedIs(sb, s, i, k, b);
    hide InUse, Listed, PutWord, WordAt;
    if j in s.inodes && NDIRECT <= n < MAXFILE {
      var a := IndOf(s.inodes[j]);
      if a != 0 {
        assert a in s.own && s.own[a] == Ind(j);
        assert IsBlock(s.blocks[a]);
        PutWordReads(s.blocks[a], k, b, n - NDIRECT);
      }
    }
  }

  lemma ListedGiven(sb: Super, s: State, i: nat, k: nat, b: nat)
    requires Owned(sb, s) && i in s.inodes && k < NINDIRECT && Free(sb, s, b) && IndOf(s.inodes[i]) != 0
    requires Addr(s, i, NDIRECT + k) == 0
    ensures IndOf(s.inodes[i]) < sb.size && BlocksOk(sb, Taken(sb, s.blocks, b))
    ensures Owned(sb, Listed(sb, s, i, k, b)) && Extends(s, Listed(sb, s, i, k, b))
    ensures Addr(Listed(sb, s, i, k, b), i, NDIRECT + k) == b
  {
    hide InUse, Taken, Addr, IndOf, PutWord;
    ListedIs(sb, s, i, k, b);
    var s', o, a := Listed(sb, s, i, k, b), Data(i, NDIRECT + k), IndOf(s.inodes[i]);
    forall j: nat, n: nat { ListedAddr(sb, s, i, k, b, j, n); }
    TakenBits(sb, s, b, o, s'.blocks, s'.inodes);
    assert a in s.own && s.own[a] == Ind(i);
    assert Given(sb, s, s', b, o);
    GivenOwned(sb, s, s', b, o);
    GivenExtends(sb, s, s', b, o);
  }

  // Bytes d are written at offset o of a block.
  function Patched(bytes: seq<int>, o: nat, d: seq<int>): (r: seq<int>)
    requires o + |d| <= |bytes|
    ensures |r| == |bytes|
  {
    bytes[..o] + d + bytes[o + |d|..]
  }

  ghost function Written(s: State, b: nat, o: nat, d: seq<int>): State
    requires b < |s.blocks| && o + |d| <= |s.blocks[b]|
  {
    s.(blocks := s.blocks[b := Patched(s.blocks[b], o, d)])
  }

  lemma InArea(sb: Super, s: State, i: nat, bn: nat)
    requires Owned(sb, s) && Addr(s, i, bn) != 0
    ensures i in s.inodes && bn < MAXFILE && sb.datastart <= Addr(s, i, bn) < sb.size
      && IsBlock(s.blocks[Addr(s, i, bn)])
    ensures Addr(s, i, bn) in s.own && s.own[Addr(s, i, bn)] == Data(i, bn)
  {
    NoInode(s, i, bn);
  }

  lemma WrittenKeeps(sb: Super, s: State, i: nat, bn: nat, o: nat, d: seq<int>)
    requires Owned(sb, s) && Addr(s, i, bn) != 0 && o + |d| <= BSIZE && AllBytes(d)
    ensures sb.datastart <= Addr(s, i, bn) < |s.blocks| && |s.blocks[Addr(s, i, bn)]| == BSIZE
    ensures Owned(sb, Written(s, Addr(s, i, bn), o, d))
    ensures forall j: nat, n: nat :: Addr(Written(s, Addr(s, i, bn), o, d), j, n) == Addr(s, j, n)
  {
    hide InUse, Patched, Addr, IndOf;
    InArea(sb, s, i, bn);
    var b := Addr(s, i, bn);
    PatchedBlock(s.blocks[b], o, d);
    DataWrite(sb, s.blocks, b, Patched(s.blocks[b], o, d));
    var s' := Written(s, b, o, d);
    forall j: nat, n: nat ensures Addr(s', j, n) == Addr(s, j, n) { WrittenAddr(sb, s, b, o, d, j, n); }
    forall c: nat | c < sb.size ensures InUse(sb, s'.blocks, c) <==> c < sb.datastart || c in s'.own {
      assert InUse(sb, s'.blocks, c) == InUse(sb, s.blocks, c);
    }
  }

  lemma WrittenAddr(sb: Super, s: State, b: nat, o: nat, d: seq<int>, j: nat, n: nat)
    requires Owned(sb, s) && b in s.own && s.own[b].Data? && b < |s.blocks| && o + |d| <= |s.blocks[b]|
    ensures Addr(Written(s, b, o, d), j, n) == Addr(s, j, n)
  {
    hide InUse, Patched;
    assert j in s.inodes && IndOf(s.inodes[j]) != 0 ==> IndOf(s.inodes[j]) != b;
  }

  lemma PatchedBlock(bytes: seq<int>, o: nat, d: seq<int>)
    requires IsBlock(bytes) && o + |d| <= BSIZE && AllBytes(d)
    ensures IsBlock(Patched(bytes, o, d))
  {
    var r := Patched(bytes, o, d);
    forall x | 0 <= x < |r| ensures IsByte(r[x]) {
      assert IsByte(bytes[x]);
      if o <= x < o + |d| { assert IsByte(d[x - o]); }
    }
  }

  // The bytes that a write to block bn of file i changes.
  function Over(x: nat, start: nat, d: seq<int>, was: int): int {
    if start <= x < start + |d| then d[x - start] else was
  }

  lemma WrittenBytes(sb: Super, s: State, i: nat, bn: nat, o: nat, d: seq<int>, j: nat, x: nat)
    requires Owned(sb, s) && Addr(s, i, bn) != 0 && o + |d| <= BSIZE && AllBytes(d)
    requires sb.datastart <= Addr(s, i, bn) < |s.blocks| && |s.blocks[Addr(s, i, bn)]| == BSIZE
    ensures ByteAt(Written(s, Addr(s, i, bn), o, d), j, x) == if j == i then
      Over(x, bn * BSIZE + o, d, ByteAt(s, j, x)) else ByteAt(s, j, x)
  {
    WrittenKeeps(sb, s, i, bn, o, d);
    InArea(sb, s, i, bn);
    hide Addr, InUse, BitsMatch, Backward, IndOf;
    var b, n := Addr(s, i, bn), x / BSIZE;
    if Addr(s, j, n) != 0 { InArea(sb, s, j, n); }
    assert x == n * BSIZE + x % BSIZE;
    if j == i && n == bn {
      PatchedAt(s.blocks[b], o, d, x % BSIZE);
    } else if Addr(s, j, n) != 0 {
      assert Addr(s, j, n) != b;
    }
  }

  lemma PatchedAt(bytes: seq<int>, o: nat, d: seq<int>, y: nat)
    requires o + |d| <= |bytes| && y < |bytes|
    ensures Patched(bytes, o, d)[y] == if o <= y < o + |d| then d[y - o] else bytes[y]
  {
  }

  // itrunc has freed inode i's first k direct blocks, first j listed blocks and, at last, the list.
  predicate Gone(o: Owner, i: nat, k: nat, j: nat, ind: bool) {
    o.inum == i && match o case Data(_, n) => n < k || NDIRECT <= n < NDIRECT + j case Ind(_) => ind
  }

  ghost predicate Trimmed(sb: Super, s: State, s': State, i: nat, k: nat, j: nat, ind: bool) {
    && BitsMatch(sb, s') && |s'.blocks| == |s.blocks|
    && (forall b :: b in s'.own <==> b in s.own && !Gone(s.own[b], i, k, j, ind))
    && (forall b :: b in s'.own ==> s'.own[b] == s.own[b])
    && (forall c :: sb.datastart <= c < |s.blocks| ==> s'.blocks[c] == s.blocks[c])
  }

  // One bfree.
  ghost function Released(sb: Super, s: State, b: nat): State
    requires SuperOk(sb) && BlocksOk(sb, s.blocks) && b < sb.size
  {
    s.(blocks := Marked(sb, s.blocks, b, false), own := s.own - {b})
  }

  lemma ReleasedBits(sb: Super, s: State, b: nat)
    requires BitsMatch(sb, s) && b in s.own
    ensures b < sb.size && InUse(sb, s.blocks, b) && BitsMatch(sb, Released(sb, s, b))
    ensures forall c :: sb.datastart <= c < |s.blocks| ==> Released(sb, s, b).blocks[c] == s.blocks[c]
  {
    hide InUse, Marked;
    MarkedIs(sb, s.blocks, b, false);
    var s' := Released(sb, s, b);
    forall c: nat | c < sb.size ensures InUse(sb, s'.blocks, c) <==> c < sb.datastart || c in s'.own {
      assert InUse(sb, s'.blocks, c) == if c == b then false else InUse(sb, s.blocks, c);
    }
  }

  // The next block to go is b, or there is none.
  lemma TrimNext(sb: Super, s: State, s': State, i: nat, k: nat, j: nat, ind: bool, k': nat, j': nat, ind': bool,
      o: Owner, b: int)
    requires Owned(sb, s) && Trimmed(sb, s, s', i, k, j, ind) && !Gone(o, i, k, j, ind)
    requires forall q: Owner :: Gone(q, i, k', j', ind') <==> Gone(q, i, k, j, ind) || q == o
    requires b >= 0 && if b == 0 then forall c :: c in s.own ==> s.own[c] != o else b in s.own && s.own[b] == o
    requires forall c :: c in s.own && s.own[c] == o ==> c == b
    ensures b != 0 ==> b in s'.own && b < sb.size
    ensures Trimmed(sb, s, if b == 0 then s' else Released(sb, s', b), i, k', j', ind')
  {
    hide InUse, Gone, Marked;
    if b != 0 { ReleasedBits(sb, s', b); }
  }

  // Which block sits at a place of an inode.
  lemma Sitter(sb: Super, s: State, o: Owner)
    requires Owned(sb, s) && o.inum in s.inodes
    ensures var b := match o case Data(i, n) => Addr(s, i, n) case Ind(i) => IndOf(s.inodes[i]);
      (if b == 0 then forall c :: c in s.own ==> s.own[c] != o else b in s.own && s.own[b] == o)
      && (forall c :: c in s.own && s.own[c] == o ==> c == b) && 0 <= b
  {
    hide InUse, Addr, IndOf;
  }

  function NoBlocks(): seq<int> { seq(NDIRECT + 1, _ => 0) }

  ghost function Truncated(s: State, s': State, i: nat): State { s'.(inodes := s.inodes[i := Inode(NoBlocks(), 0)]) }

  lemma TruncatedAddr(sb: Super, s: State, s': State, i: nat, j: nat, n: nat)
    requires Owned(sb, s) && i in s.inodes && Trimmed(sb, s, s', i, NDIRECT, NINDIRECT, true)
    ensures Addr(Truncated(s, s', i), j, n) == if j == i then 0 else Addr(s, j, n)
    ensures j in s.inodes ==> IndOf(Truncated(s, s', i).inodes[j]) == if j == i then 0 else IndOf(s.inodes[j])
  {
    hide InUse, Gone;
    assert j in s.inodes && IndOf(s.inodes[j]) != 0 ==> IndOf(s.inodes[j]) in s.own;
  }

  /** itrunc gives back exactly its inode's blocks. */
  lemma TruncatedKeeps(sb: Super, s: State, s': State, i: nat)
    requires Owned(sb, s) && i in s.inodes && Trimmed(sb, s, s', i, NDIRECT, NINDIRECT, true)
    ensures Owned(sb, Truncated(s, s', i))
    ensures forall b :: b in s'.own <==> b in s.own && s.own[b].inum != i
    ensures forall j: nat, x: nat :: ByteAt(Truncated(s, s', i), j, x) == if j == i then 0 else ByteAt(s, j, x)
    ensures forall j: nat, n: nat :: Addr(Truncated(s, s', i), j, n) == if j == i then 0 else Addr(s, j, n)
  {
    hide InUse, Addr, IndOf;
    var t := Truncated(s, s', i);
    forall j: nat, n: nat { TruncatedAddr(sb, s, s', i, j, n); }
    forall b | b in s.own ensures Gone(s.own[b], i, NDIRECT, NINDIRECT, true) <==> s.own[b].inum == i {
      if s.own[b].Data? { NoInode(s, s.own[b].inum, s.own[b].bn); }
    }
    forall j, n | j in t.inodes && Addr(t, j, n) != 0 ensures Addr(t, j, n) in t.own
      && t.own[Addr(t, j, n)] == Data(j, n) {
      InArea(sb, s, j, n);
    }
    forall j | j in t.inodes && IndOf(t.inodes[j]) != 0 ensures IndOf(t.inodes[j]) in t.own
      && t.own[IndOf(t.inodes[j])] == Ind(j) {
      TruncatedAddr(sb, s, s', i, j, 0);
    }
    forall j: nat, x: nat ensures ByteAt(t, j, x) == if j == i then 0 else ByteAt(s, j, x) {
      if Addr(s, j, x / BSIZE) != 0 { InArea(sb, s, j, x / BSIZE); }
    }
  }
}
