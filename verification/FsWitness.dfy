/** Two writes that filewrite reports as failed although it has written a part of them. */
module FsWitness {
  import opened Bytes
  import opened Inodes
  import opened Sets
  import opened Spending
  import opened Space
  import opened Fs

  lemma {:induction false} PlacesSize(i: nat, lo: nat, hi: nat)
    requires lo <= hi
    ensures |Places(i, lo, hi)| == hi - lo + if lo < hi && hi > NDIRECT then 1 else 0
  {
    DataSize(i, lo, hi);
    var data := set bn: nat | lo <= bn < hi :: Data(i, bn);
    assert Ind(i) !in data;
  }

  lemma {:induction false} DataSize(i: nat, lo: nat, hi: nat)
    requires lo <= hi
    ensures |set bn: nat | lo <= bn < hi :: Data(i, bn)| == hi - lo
  {
    var data := set bn: nat | lo <= bn < hi :: Data(i, bn);
    if lo < hi {
      DataSize(i, lo, hi - 1);
      var rest := set bn: nat | lo <= bn < hi - 1 :: Data(i, bn);
      assert data == rest + {Data(i, hi - 1)} && Data(i, hi - 1) !in rest;
    } else {
      assert data == {};
    }
  }

  // A disk with no file on it has all its data blocks to give.
  lemma BlankHolds(sb: Super, s: State, i: nat, n: nat)
    requires BitsMatch(sb, s) && s.own == map[] && n > 0
    ensures Holdable(sb, s, i, 0, n) <==>
      (n - 1) / BSIZE + 1 + (if (n - 1) / BSIZE >= NDIRECT then 1 else 0) <= sb.size - sb.datastart
  {
    assert SuperOk(sb);
    hide BitsMatch, Holdable, Places, Unowned;
    HoldableIs(sb, s, i, 0, n);
    PlacesSize(i, 0, (n - 1) / BSIZE + 1);
    BlankSpace(sb);
    assert Held(s.own) == {};
    assert Wanted(i, 0, n) - {} == Places(i, 0, (n - 1) / BSIZE + 1);
  }

  lemma BlankSpace(sb: Super)
    requires sb.datastart <= sb.size
    ensures |Unowned(sb, map[])| == sb.size - sb.datastart
  {
    RangeIs(sb.datastart, sb.size - sb.datastart);
    assert Unowned(sb, map[]) == Range(sb.datastart, sb.size - sb.datastart);
  }

  function Blanks(n: nat): (d: seq<int>)
    ensures |d| == n && AllBytes(d)
  {
    seq(n, _ => 0)
  }

  /** One byte more than the largest file, into an empty file on the disk that mkfs makes: 89 chunks are
      written, the last 1025 bytes are refused, and the result is -1. */
  method OverlongWrite() returns (fs: FileSystem, ret: int, newoff: nat)
    ensures fresh(fs) && fs.Valid() && ret == -1 && newoff == 273408
    ensures 1 in fs.files && fs.files[1] == Blanks(274433)[..newoff]
  {
    hide Owned, BitsMatch, Holds, Holdable, FileNow, Wrote, AllUsed, Blanks, Reach, Chunk;
    fs := new FileSystem(Super(2000, 32, 45, 46), {1});
    ghost var s, files := fs.S(), fs.files;
    OwnedBits(fs.sb, s);
    BlankHolds(fs.sb, s, 1, 273408);
    EightyNineChunks();
    FilesKeys(s, files);
    var data := Blanks(274433);
    ghost var worst;
    ret, newoff, worst := fs.Filewrite(1, 0, data);
    FarAsItGoes(fs.sb, s, 1, |data|, newoff);
    FromNothing(files, fs.files, 1, data, newoff);
  }

  lemma EightyNineChunks()
    ensures Reach(0, 274433) == 273408 == 89 * CHUNK && MAXFILE * BSIZE == 274432 && (273408 - 1) / BSIZE == 266
  {
    assert CHUNK == 3072;
  }

  lemma FarAsItGoes(sb: Super, s: State, i: nat, n: nat, w: int)
    requires Wrote(sb, s, 0, i, 0, n, w) && Reach(0, n) >= 0 && Holdable(sb, s, i, 0, Reach(0, n))
    ensures w == Reach(0, n)
  {
    hide Holdable;
    if w < Reach(0, n) { HoldableLess(sb, s, i, 0, Reach(0, n), w + 1); }
  }

  lemma FromNothing(files: map<nat, seq<int>>, files': map<nat, seq<int>>, i: nat, data: seq<int>, k: nat)
    requires FileNow(files, files', i, 0, data, k) && files[i] == [] && k > 0
    ensures i in files' && files'[i] == data[..k]
  {
  }

  /** Two blocks, into an empty file on a disk with one free block: the first is written, and the result is -1. */
  method FullDiskWrite() returns (fs: FileSystem, ret: int, newoff: nat)
    ensures fresh(fs) && fs.Valid() && ret == -1 && newoff == BSIZE
    ensures 1 in fs.files && fs.files[1] == Blanks(2 * BSIZE)[..newoff]
  {
    hide Owned, BitsMatch, Holds, Holdable, FileNow, Wrote, AllUsed, Blanks;
    fs := new FileSystem(Super(47, 32, 45, 46), {1});
    ghost var s, files := fs.S(), fs.files;
    OwnedBits(fs.sb, s);
    BlankHolds(fs.sb, s, 1, BSIZE);
    BlankHolds(fs.sb, s, 1, BSIZE + 1);
    FilesKeys(s, files);
    var data := Blanks(2 * BSIZE);
    ghost var worst;
    ret, newoff, worst := fs.Filewrite(1, 0, data);
    JustSo(fs.sb, s, 1, 2 * BSIZE, BSIZE, newoff);
    FromNothing(files, fs.files, 1, data, newoff);
  }

  lemma JustSo(sb: Super, s: State, i: nat, n: nat, k: nat, w: int)
    requires Wrote(sb, s, 0, i, 0, n, w) && k < n <= MAXFILE * BSIZE
    requires Holdable(sb, s, i, 0, k) && !Holdable(sb, s, i, 0, k + 1)
    ensures w == k
  {
    hide Holdable;
    if w < k { HoldableLess(sb, s, i, 0, k, w + 1); }
    if w > k { HoldableLess(sb, s, i, 0, w, k + 1); }
  }
}
