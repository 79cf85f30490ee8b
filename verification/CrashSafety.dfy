/** The redo log of kernel/log.c as a protocol on the disk alone: the block
    writes of a commit and of a recovery, the disk that a crash leaves between
    any two of them, and what recovery makes of it. */
module CrashSafety {
  import opened Bio

  const LOGSIZE: nat := 30

  // log.start and log.size; block start is the header.
  datatype Layout = Layout(start: nat, size: nat) {
    predicate InLog(b: int) { start <= b < start + size }
    // A header can name these blocks: distinct, outside the log, no more than there is room for.
    ghost predicate Loggable(blocks: seq<int>, disk: Disk) {
      && size > 0 && start + size <= |disk| && |disk[start].words| == BLOCK_WORDS
      && |blocks| <= LOGSIZE && |blocks| < size
      && (forall i :: 0 <= i < |blocks| ==> 0 <= blocks[i] < |disk| && !InLog(blocks[i]))
      && (forall i, j :: 0 <= i < j < |blocks| ==> blocks[i] != blocks[j])
    }
  }

  predicate IsHeader(h: Block) {
    |h.words| == BLOCK_WORDS && 0 <= h.words[0] <= LOGSIZE
  }

  // The block numbers in a header block: word 0 is n, words 1..n the blocks.
  function Header(h: Block): seq<int> {
    if IsHeader(h) then h.words[1..h.words[0] + 1] else []
  }

  // write_head overwrites n and the first n entries and leaves the rest of the block.
  function WithHeader(h: Block, blocks: seq<int>): (r: Block)
    requires |blocks| <= LOGSIZE && |h.words| == BLOCK_WORDS
    ensures IsHeader(r) && Header(r) == blocks
  {
    Block([|blocks|] + blocks + h.words[|blocks| + 1..])
  }

  ghost predicate WellFormed(l: Layout, d: Disk) {
    l.size > 0 && l.start + l.size <= |d| && IsHeader(d[l.start]) && l.Loggable(Header(d[l.start]), d)
  }

  // Home blocks agree; the log area may differ.
  ghost predicate SameHome(l: Layout, d: Disk, e: Disk) {
    |d| == |e| && forall b :: 0 <= b < |d| && !l.InLog(b) ==> d[b] == e[b]
  }

  // The first k writes of write_log, which copies mem's blocks into the log.
  ghost function LogWrites(l: Layout, mem: Disk, blocks: seq<int>, k: nat): (ws: seq<Write>)
    requires l.Loggable(blocks, mem) && k <= |blocks|
    ensures |ws| == k
  {
    seq(k, i requires 0 <= i < k => Write(l.start + 1 + i, mem[blocks[i]]))
  }

  // The first k writes of install_trans, which copies d's log to the home blocks.
  ghost function InstallWrites(l: Layout, d: Disk, blocks: seq<int>, k: nat): (ws: seq<Write>)
    requires l.Loggable(blocks, d) && k <= |blocks|
    ensures |ws| == k
  {
    seq(k, i requires 0 <= i < k => Write(blocks[i], d[l.start + 1 + i]))
  }

  lemma WritesGrow(l: Layout, d: Disk, blocks: seq<int>, k: nat)
    requires l.Loggable(blocks, d) && k < |blocks|
    ensures LogWrites(l, d, blocks, k + 1) == LogWrites(l, d, blocks, k) + [Write(l.start + 1 + k, d[blocks[k]])]
    ensures InstallWrites(l, d, blocks, k + 1) ==
      InstallWrites(l, d, blocks, k) + [Write(blocks[k], d[l.start + 1 + k])]
  {}

  ghost function HeadWrite(l: Layout, h: Block, blocks: seq<int>): Write
    requires |blocks| <= LOGSIZE && |h.words| == BLOCK_WORDS
  {
    Write(l.start, WithHeader(h, blocks))
  }

  // All the writes of a recovery of d: install what the header names, then clear it.
  ghost function RecoveryWrites(l: Layout, d: Disk): seq<Write>
    requires WellFormed(l, d)
  {
    var blocks := Header(d[l.start]);
    InstallWrites(l, d, blocks, |blocks|) + [HeadWrite(l, d[l.start], [])]
  }

  // The disk after recovery runs to its end.
  ghost function Recovered(l: Layout, d: Disk): Disk
    requires WellFormed(l, d)
  {
    Replay(d, RecoveryWrites(l, d))
  }

  // d once the transaction has been logged and its header written: "the real commit".
  ghost function Committed(l: Layout, d: Disk, mem: Disk, blocks: seq<int>): (r: Disk)
    requires l.Loggable(blocks, d) && l.Loggable(blocks, mem)
  {
    Replay(d, LogWrites(l, mem, blocks, |blocks|) + [HeadWrite(l, d[l.start], blocks)])
  }

  lemma {:induction false} ReplayMiss(d: Disk, ws: seq<Write>, b: nat)
    requires b < |d| && forall i :: 0 <= i < |ws| ==> ws[i].blockno != b
    ensures Replay(d, ws)[b] == d[b]
  {
    if ws != [] { ReplayMiss(d, ws[..|ws| - 1], b); }
  }

  lemma {:induction false} ReplayHit(d: Disk, ws: seq<Write>, i: nat)
    requires i < |ws| && ws[i].blockno < |d| && forall j :: i < j < |ws| ==> ws[j].blockno != ws[i].blockno
    ensures Replay(d, ws)[ws[i].blockno] == ws[i].data
  {
    if i < |ws| - 1 { ReplayHit(d, ws[..|ws| - 1], i); }
  }

  // What recovery puts in a home block.
  lemma RecoveredAt(l: Layout, d: Disk, b: nat)
    requires WellFormed(l, d) && b < |d| && !l.InLog(b)
    ensures var blocks := Header(d[l.start]);
            && (b !in blocks ==> Recovered(l, d)[b] == d[b])
            && forall i :: 0 <= i < |blocks| && blocks[i] == b ==> Recovered(l, d)[b] == d[l.start + 1 + i]
  {
    var blocks := Header(d[l.start]);
    var ws := RecoveryWrites(l, d);
    if b in blocks {
      var i: nat :| i < |blocks| && blocks[i] == b;
      assert ws[i] == Write(b, d[l.start + 1 + i]);
      ReplayHit(d, ws, i);
    } else {
      ReplayMiss(d, ws, b);
    }
  }

  // Recovery cleans up after itself: it ends with an empty log.
  lemma RecoveredIsEmpty(l: Layout, d: Disk)
    requires WellFormed(l, d)
    ensures |Recovered(l, d)| == |d| && WellFormed(l, Recovered(l, d)) && Header(Recovered(l, d)[l.start]) == []
  {
    var ws := RecoveryWrites(l, d);
    ReplayHit(d, ws, |ws| - 1);
  }

  // A disk with every named block installed and the header cleared is the recovered disk.
  lemma RecoveredIs(l: Layout, d: Disk, e: Disk)
    requires WellFormed(l, d) && |e| == |d| && e[l.start] == WithHeader(d[l.start], [])
    requires forall b :: 0 <= b < |d| && b != l.start && b !in Header(d[l.start]) ==> e[b] == d[b]
    requires forall i :: 0 <= i < |Header(d[l.start])| ==> e[Header(d[l.start])[i]] == d[l.start + 1 + i]
    ensures e == Recovered(l, d)
  {
    var blocks, ws := Header(d[l.start]), RecoveryWrites(l, d);
    forall b: nat | b < |d| ensures e[b] == Recovered(l, d)[b] {
      if b == l.start {
        ReplayHit(d, ws, |ws| - 1);
      } else if l.InLog(b) {
        ReplayMiss(d, ws, b);
      } else {
        RecoveredAt(l, d, b);
      }
    }
  }

  // Two disks with the same log recover to the same home contents when they
  // differ, outside the log, only on blocks the header names.
  lemma SameLogSameRecovery(l: Layout, d: Disk, e: Disk)
    requires WellFormed(l, d) && |d| == |e| && forall b :: l.InLog(b) ==> d[b] == e[b]
    requires forall b :: 0 <= b < |d| && b !in Header(d[l.start]) ==> d[b] == e[b]
    ensures WellFormed(l, e) && SameHome(l, Recovered(l, d), Recovered(l, e))
  {
    var blocks := Header(d[l.start]);
    assert l.InLog(l.start);
    forall b: nat | b < |d| && !l.InLog(b) ensures Recovered(l, d)[b] == Recovered(l, e)[b] {
      RecoveredAt(l, d, b);
      RecoveredAt(l, e, b);
      if b in blocks {
        var i: nat :| i < |blocks| && blocks[i] == b;
        assert l.InLog(l.start + 1 + i);
      }
    }
  }

  // A disk with an empty log recovers to itself, on the home blocks.
  lemma EmptyLogRecovers(l: Layout, d: Disk)
    requires WellFormed(l, d) && Header(d[l.start]) == []
    ensures SameHome(l, Recovered(l, d), d)
  {
    forall b: nat | b < |d| && !l.InLog(b) ensures Recovered(l, d)[b] == d[b] { RecoveredAt(l, d, b); }
  }

  // A crash at any point of a recovery does not change what recovery yields.
  lemma RecoveryStep(l: Layout, d: Disk, k: nat)
    requires WellFormed(l, d) && k <= |RecoveryWrites(l, d)|
    ensures var t := Replay(d, RecoveryWrites(l, d)[..k]);
            WellFormed(l, t) && SameHome(l, Recovered(l, t), Recovered(l, d))
  {
    var blocks := Header(d[l.start]);
    var ws := RecoveryWrites(l, d)[..k];
    var t := Replay(d, ws);
    if k <= |blocks| {
      forall b: nat | b < |d| && (l.InLog(b) || b !in blocks) ensures t[b] == d[b] { ReplayMiss(d, ws, b); }
      SameLogSameRecovery(l, d, t);
    } else {
      assert ws == RecoveryWrites(l, d);
      RecoveredIsEmpty(l, d);
      EmptyLogRecovers(l, t);
    }
  }

  // The disk at one power-up and at the next: a recovery of d got through k of its writes.
  ghost predicate CrashedInRecovery(l: Layout, d: Disk, e: Disk)
    requires WellFormed(l, d)
  {
    exists k :: 0 <= k <= |RecoveryWrites(l, d)| && e == Replay(d, RecoveryWrites(l, d)[..k])
  }

  ghost predicate CrashChain(l: Layout, ds: seq<Disk>) {
    && |ds| > 0
    && (forall i :: 0 <= i < |ds| ==> WellFormed(l, ds[i]))
    && (forall i, j :: 0 <= i && j == i + 1 && j < |ds| ==> CrashedInRecovery(l, ds[i], ds[j]))
  }

  lemma {:induction false} ChainRecovers(l: Layout, ds: seq<Disk>)
    requires CrashChain(l, ds)
    ensures SameHome(l, Recovered(l, ds[|ds| - 1]), Recovered(l, ds[0]))
  {
    if |ds| > 1 {
      var rest := ds[1..];
      assert forall i :: 0 <= i < |rest| ==> rest[i] == ds[i + 1];
      assert CrashedInRecovery(l, ds[0], ds[1]);
      ChainRecovers(l, rest);
      var k :| 0 <= k <= |RecoveryWrites(l, ds[0])| && ds[1] == Replay(ds[0], RecoveryWrites(l, ds[0])[..k]);
      RecoveryStep(l, ds[0], k);
    }
  }

  // All the writes of a commit.
  ghost function CommitWrites(l: Layout, d: Disk, mem: Disk, blocks: seq<int>): seq<Write>
    requires l.Loggable(blocks, d) && l.Loggable(blocks, mem)
  {
    var h := WithHeader(d[l.start], blocks);
    LogWrites(l, mem, blocks, |blocks|) + [HeadWrite(l, d[l.start], blocks)]
    + seq(|blocks|, i requires 0 <= i < |blocks| => Write(blocks[i], mem[blocks[i]])) + [HeadWrite(l, h, [])]
  }

  // The log area of the committed disk.
  lemma CommittedLog(l: Layout, d: Disk, mem: Disk, blocks: seq<int>)
    requires l.Loggable(blocks, d) && l.Loggable(blocks, mem)
    ensures var c := Committed(l, d, mem, blocks);
            && |c| == |d| && c[l.start] == WithHeader(d[l.start], blocks)
            && (forall i :: 0 <= i < |blocks| ==> c[l.start + 1 + i] == mem[blocks[i]])
            && SameHome(l, c, d)
  {
    var ws := LogWrites(l, mem, blocks, |blocks|) + [HeadWrite(l, d[l.start], blocks)];
    ReplayHit(d, ws, |blocks|);
    forall i: nat | i < |blocks| ensures Replay(d, ws)[l.start + 1 + i] == mem[blocks[i]] { ReplayHit(d, ws, i); }
    forall b: nat | b < |d| && !l.InLog(b) ensures Replay(d, ws)[b] == d[b] { ReplayMiss(d, ws, b); }
  }

  // It recovers to the new contents.
  lemma CommittedRecovers(l: Layout, d: Disk, mem: Disk, blocks: seq<int>)
    requires l.Loggable(blocks, d) && l.Loggable(blocks, mem) && |mem| == |d|
    requires forall b :: 0 <= b < |d| && b !in blocks ==> mem[b] == d[b]
    ensures var c := Committed(l, d, mem, blocks);
            WellFormed(l, c) && Header(c[l.start]) == blocks && SameHome(l, Recovered(l, c), mem)
  {
    var c := Committed(l, d, mem, blocks);
    CommittedLog(l, d, mem, blocks);
    forall b: nat | b < |d| && !l.InLog(b) ensures Recovered(l, c)[b] == mem[b] {
      RecoveredAt(l, c, b);
      if b in blocks { var i: nat :| i < |blocks| && blocks[i] == b; }
    }
  }

  // From the header write on, a commit makes the very writes of a recovery.
  lemma CommitTail(l: Layout, d: Disk, mem: Disk, blocks: seq<int>)
    requires l.Loggable(blocks, d) && l.Loggable(blocks, mem) && |mem| == |d|
    requires WellFormed(l, Committed(l, d, mem, blocks)) && Header(Committed(l, d, mem, blocks)[l.start]) == blocks
    ensures CommitWrites(l, d, mem, blocks)[|blocks| + 1..] == RecoveryWrites(l, Committed(l, d, mem, blocks))
  {
    CommittedLog(l, d, mem, blocks);
  }

  // Nothing uncommitted reaches a home block: until the header is on disk, only the log area is written.
  lemma UncommittedStaysInLog(l: Layout, d: Disk, mem: Disk, blocks: seq<int>, k: nat)
    requires l.Loggable(blocks, d) && l.Loggable(blocks, mem) && k <= |blocks|
    ensures l.InLog(CommitWrites(l, d, mem, blocks)[k].blockno)
    ensures CommitWrites(l, d, mem, blocks)[k] == HeadWrite(l, d[l.start], blocks) <==> k == |blocks|
  {
    var w := CommitWrites(l, d, mem, blocks)[k];
    if k < |blocks| { assert w.blockno == l.start + 1 + k; }
  }

  // Before the header write the disk recovers to the old contents.
  lemma LoggingStep(l: Layout, d: Disk, mem: Disk, blocks: seq<int>, k: nat)
    requires WellFormed(l, d) && Header(d[l.start]) == [] && l.Loggable(blocks, d) && l.Loggable(blocks, mem)
    requires k <= |blocks|
    ensures var t := Replay(d, LogWrites(l, mem, blocks, k));
            WellFormed(l, t) && SameHome(l, Recovered(l, t), d)
  {
    var ws := LogWrites(l, mem, blocks, k);
    var t := Replay(d, ws);
    forall b: nat | b < |d| && (b == l.start || !l.InLog(b)) ensures t[b] == d[b] { ReplayMiss(d, ws, b); }
    EmptyLogRecovers(l, t);
  }

  lemma CommitPrefix(l: Layout, d: Disk, mem: Disk, blocks: seq<int>, k: nat)
    requires l.Loggable(blocks, d) && l.Loggable(blocks, mem) && k <= |CommitWrites(l, d, mem, blocks)|
    ensures var cw, n := CommitWrites(l, d, mem, blocks), |blocks|;
            && (k <= n ==> cw[..k] == LogWrites(l, mem, blocks, k))
            && (k > n ==>
              cw[..k] == LogWrites(l, mem, blocks, n) + [HeadWrite(l, d[l.start], blocks)]
              + cw[n + 1..][..k - n - 1])
  {
    var cw, n := CommitWrites(l, d, mem, blocks), |blocks|;
    var head := LogWrites(l, mem, blocks, n) + [HeadWrite(l, d[l.start], blocks)];
    assert cw[..n + 1] == head;
    if k <= n {
      assert cw[..k] == head[..k];
    } else {
      assert cw[..k] == cw[..n + 1] + cw[n + 1..][..k - n - 1];
    }
  }

  // Every disk of a commit recovers to the old contents before the header write and to the new ones from it on.
  lemma CommitStep(l: Layout, d: Disk, mem: Disk, blocks: seq<int>, k: nat)
    requires WellFormed(l, d) && Header(d[l.start]) == [] && l.Loggable(blocks, d) && l.Loggable(blocks, mem)
      && |mem| == |d|
    requires forall b :: 0 <= b < |d| && b !in blocks ==> mem[b] == d[b]
    requires k <= |CommitWrites(l, d, mem, blocks)|
    ensures var t := Replay(d, CommitWrites(l, d, mem, blocks)[..k]);
            WellFormed(l, t) && SameHome(l, Recovered(l, t), if k <= |blocks| then d else mem)
  {
    CommitPrefix(l, d, mem, blocks, k);
    if k <= |blocks| {
      LoggingStep(l, d, mem, blocks, k);
    } else {
      var c := Committed(l, d, mem, blocks);
      CommittedRecovers(l, d, mem, blocks);
      CommitTail(l, d, mem, blocks);
      ReplayConcat(d, LogWrites(l, mem, blocks, |blocks|) + [HeadWrite(l, d[l.start], blocks)],
                   RecoveryWrites(l, c)[..k - |blocks| - 1]);
      RecoveryStep(l, c, k - |blocks| - 1);
    }
  }

  /** Crash atomicity.  Power fails after the k-th write of a commit and then any
      number of times during the recoveries that follow.  The recovery that
      finishes leaves the home blocks exactly as before the transaction, or
      exactly as after it; as after it once the header has been written. */
  lemma CrashAtomicity(l: Layout, d: Disk, mem: Disk, blocks: seq<int>, k: nat, ds: seq<Disk>)
    requires WellFormed(l, d) && Header(d[l.start]) == [] && l.Loggable(blocks, d) && l.Loggable(blocks, mem)
      && |mem| == |d|
    requires forall b :: 0 <= b < |d| && b !in blocks ==> mem[b] == d[b]
    requires k <= |CommitWrites(l, d, mem, blocks)|
    requires CrashChain(l, ds) && ds[0] == Replay(d, CommitWrites(l, d, mem, blocks)[..k])
    ensures SameHome(l, Recovered(l, ds[|ds| - 1]), if k <= |blocks| then d else mem)
  {
    CommitStep(l, d, mem, blocks, k);
    ChainRecovers(l, ds);
  }
}
