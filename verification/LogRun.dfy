/** Runs of the log: any sequence of begin_op, reads, logged writes and end_op, against a
    plain map of blocks, with a crash anywhere in the run. */
module LogRun {
  import opened Bio
  import opened CrashSafety
  import opened Log
  import R = Reservation

  datatype Request = Begin | Get(b: nat) | Put(b: nat, x: Block) | End

  datatype Answer = Slept | Began | Data(x: Block) | Done

  // struct log, the home blocks as last logged, and the home blocks as last committed.
  datatype Plain = Plain(view: R.LogState, m: Disk, durable: Disk)

  // What the callers promise: home blocks only, and no end_op without a begin_op.
  predicate Legal(l: Layout, p: Plain, req: Request) {
    match req
    case Begin => true
    case Get(b) => b < |p.m| && !l.InLog(b)
    case Put(b, _) => b < |p.m| && !l.InLog(b)
    case End => p.view.outstanding > 0
  }

  // begin_op reserves room for MAXOPBLOCKS blocks from every call, and waits for a commit to end.
  predicate Admits(v: R.LogState) { !v.committing && |v.lh| + (v.outstanding + 1) * R.MAXOPBLOCKS <= LOGSIZE }

  // log_write needs room in the header, even for a block that is there already, and a running call.
  predicate Takes(size: nat, v: R.LogState) { |v.lh| < LOGSIZE && |v.lh| < size - 1 && v.outstanding >= 1 }

  // When a request does not panic: a read needs a buffer that no logged block has pinned,
  // and so does a commit that has something to write.
  predicate Serves(size: nat, p: Plain, req: Request) {
    match req
    case Begin => true
    case Get(b) => |p.view.lh| < NBUF || b in p.view.lh
    case Put(b, _) => Takes(size, p.view)
    case End => p.view.outstanding == 1 ==> |p.view.lh| < NBUF
  }

  // end_op makes everything durable when it is the last call out.
  function Served(size: nat, p: Plain, req: Request): Plain {
    match req
    case Begin => if Admits(p.view) then p.(view := p.view.(outstanding := p.view.outstanding + 1)) else p
    case Get(_) => p
    case Put(b, x) =>
      if Takes(size, p.view) && b < |p.m|
      then p.(view := p.view.(lh := if b in p.view.lh then p.view.lh else p.view.lh + [b]), m := p.m[b := x]) else p
    case End =>
      if p.view.outstanding == 1 then Plain(R.LogState(0, false, []), p.m, p.m)
      else p.(view := p.view.(outstanding := p.view.outstanding - 1))
  }

  function AnswerTo(p: Plain, req: Request): Answer {
    match req
    case Begin => if Admits(p.view) then Began else Slept
    case Get(b) => if b < |p.m| then Data(p.m[b]) else Done
    case _ => Done
  }

  function After(size: nat, p: Plain, reqs: seq<Request>): Plain {
    if reqs == [] then p else Served(size, After(size, p, reqs[..|reqs| - 1]), reqs[|reqs| - 1])
  }

  lemma AfterNext(size: nat, p: Plain, reqs: seq<Request>, i: nat)
    requires i < |reqs|
    ensures After(size, p, reqs[..i + 1]) == Served(size, After(size, p, reqs[..i]), reqs[i])
  {
    assert reqs[..i + 1][..i] == reqs[..i];
  }

  // As long as nothing has panicked the callers keep their promise.
  ghost predicate LegalRun(l: Layout, p: Plain, reqs: seq<Request>) {
    forall i :: 0 <= i < |reqs| && Smooth(l.size, p, reqs, i) ==> Legal(l, After(l.size, p, reqs[..i]), reqs[i])
  }

  ghost predicate Smooth(size: nat, p: Plain, reqs: seq<Request>, n: nat) {
    n <= |reqs| && forall i :: 0 <= i < n ==> Serves(size, After(size, p, reqs[..i]), reqs[i])
  }

  // Recovery from t, and from any number of crashes inside it, ends with these home blocks.
  ghost predicate Survives(l: Layout, t: Disk, want: Disk) {
    WellFormed(l, t) && forall ds :: CrashChain(l, ds) && ds[0] == t ==> SameHome(l, Recovered(l, ds[|ds| - 1]), want)
  }

  lemma SurvivesIf(l: Layout, t: Disk, d: Disk, want: Disk)
    requires WellFormed(l, t) && SameHome(l, Recovered(l, t), d) && SameHome(l, d, want)
    ensures Survives(l, t, want)
  {
    hide WellFormed, Recovered, SameHome;
    forall ds | CrashChain(l, ds) && ds[0] == t ensures SameHome(l, Recovered(l, ds[|ds| - 1]), want) {
      assert |ds| > 0 && WellFormed(l, ds[|ds| - 1]);
      ChainRecovers(l, ds);
      SameHomeTrans(l, Recovered(l, ds[|ds| - 1]), Recovered(l, t), d);
      SameHomeTrans(l, Recovered(l, ds[|ds| - 1]), d, want);
    }
  }

  // The disk writes of one request: a crash after k of them leaves the old or the new
  // durable contents, and the new ones exactly from the header write on.
  ghost predicate CrashSafe(l: Layout, d: Disk, ws: seq<Write>, n: nat, before: Disk, after: Disk) {
    forall k :: 0 <= k <= |ws| ==> Survives(l, Replay(d, ws[..k]), if k <= n then before else after)
  }

  lemma QuietIsSafe(l: Layout, d: Disk, n: nat, durable: Disk, after: Disk)
    requires WellFormed(l, d) && Header(d[l.start]) == [] && SameHome(l, d, durable)
    ensures CrashSafe(l, d, [], n, durable, after) && Replay(d, []) == d
  {
    EmptyLogRecovers(l, d);
    SurvivesIf(l, d, d, durable);
    hide Survives, WellFormed, SameHome;
  }

  lemma SurvivesNow(l: Layout, d: Disk, n: nat, durable: Disk, after: Disk)
    requires CrashSafe(l, d, [], n, durable, after)
    ensures Survives(l, d, durable)
  {
    hide Survives;
    assert Survives(l, Replay(d, [][..0]), durable);
    assert Replay(d, [][..0]) == d;
  }

  lemma CommitIsSafe(l: Layout, d: Disk, mem: Disk, blocks: seq<int>, durable: Disk, m: Disk)
    requires WellFormed(l, d) && Header(d[l.start]) == [] && l.Loggable(blocks, d) && l.Loggable(blocks, mem)
      && |mem| == |d|
    requires forall b :: 0 <= b < |d| && b !in blocks ==> mem[b] == d[b]
    requires SameHome(l, d, durable) && SameHome(l, mem, m)
    ensures CrashSafe(l, d, CommitWrites(l, d, mem, blocks), |blocks|, durable, m)
  {
    var ws := CommitWrites(l, d, mem, blocks);
    forall k | 0 <= k <= |ws| ensures Survives(l, Replay(d, ws[..k]), if k <= |blocks| then durable else m) {
      CommitStep(l, d, mem, blocks, k);
      hide CommitWrites, WellFormed, Recovered, SameHome;
      var from, to := if k <= |blocks| then d else mem, if k <= |blocks| then durable else m;
      forall ds | CrashChain(l, ds) && ds[0] == Replay(d, ws[..k]) ensures SameHome(l, Recovered(l, ds[|ds| - 1]), to) {
        CrashAtomicity(l, d, mem, blocks, k, ds);
        SameHomeTrans(l, Recovered(l, ds[|ds| - 1]), from, to);
      }
    }
  }

  // The log and its cache stand for p.
  ghost predicate Matches(log: Log, p: Plain)
    reads log, log.bc
  {
    && log.Valid() && !log.committing && Idle(log.bc.buf, log.pins)
    && p.view == log.View() && SameHome(log.l, log.mem, p.m) && SameHome(log.l, log.bc.disk, p.durable)
  }

  lemma Facts(log: Log, p: Plain)
    requires Matches(log, p)
    ensures WellFormed(log.l, log.bc.disk) && Header(log.bc.disk[log.l.start]) == []
    ensures log.l.Loggable(log.lh, log.bc.disk) && log.l.Loggable(log.lh, log.mem)
    ensures |log.mem| == |log.bc.disk| == |p.m| == |p.durable|
    ensures forall b :: 0 <= b < |log.mem| && b !in log.lh ==> log.mem[b] == log.bc.disk[b]
    ensures |log.lh| <= NBUF && (HasFree(log.bc.buf) <==> |log.lh| < NBUF)
    ensures forall b: nat :: Cached(log.bc.buf, DEV, b) || HasFree(log.bc.buf) <==> |log.lh| < NBUF || b in log.lh
    ensures forall b :: 0 <= b < |p.m| && !log.l.InLog(b) ==> log.mem[b] == p.m[b]
    ensures Traced(log.bc.start, log.bc.writes, log.bc.disk)
  {
    FreeExactly(log.bc.buf, log.lh, log.pins);
    log.LoggableNow();
  }

  method ServeOne(log: Log, req: Request, ghost p: Plain) returns (ok: bool, a: Answer, ghost ws: seq<Write>)
    requires Matches(log, p) && Legal(log.l, p, req)
    modifies log, log.bc
    ensures ok <==> Serves(log.l.size, p, req)
    ensures ok ==> Matches(log, Served(log.l.size, p, req)) && a == AnswerTo(p, req)
    ensures ok ==> log.bc.writes == old(log.bc.writes) + ws && log.bc.disk == Replay(old(log.bc.disk), ws)
    ensures ok ==> CrashSafe(log.l, old(log.bc.disk), ws, |p.view.lh|, p.durable, Served(log.l.size, p, req).durable)
    ensures !ok ==> log.bc.writes == old(log.bc.writes) && log.bc.disk == old(log.bc.disk)
    ensures !ok ==> Survives(log.l, log.bc.disk, p.durable)
  {
    hide Log.Valid, HasFree, Cached, WellFormed, Idle, SameHome, CrashSafe, CommitWrites, Traced, Survives, Header,
      CrashSafety.Layout.Loggable;
    Facts(log, p);
    QuietIsSafe(log.l, log.bc.disk, |p.view.lh|, p.durable, p.durable);
    SurvivesNow(log.l, log.bc.disk, |p.view.lh|, p.durable, p.durable);
    ws := [];
    match req
    case Begin =>
      var begun := log.BeginOp();
      ok, a := true, if begun then Began else Slept;
    case Get(b) =>
      var x;
      ok, x := log.Read(b);
      a := Data(x);
    case Put(b, x) =>
      ghost var m := log.mem;
      ok := log.Update(b, x);
      a := Done;
      SameHomePut(log.l, m, p.m, b, x);
    case End =>
      a := Done;
      ok, ws := EndServed(log, p);
  }

  lemma SameHomePut(l: Layout, d: Disk, e: Disk, b: nat, x: Block)
    requires SameHome(l, d, e) && b < |d|
    ensures SameHome(l, d[b := x], e[b := x])
  {
  }

  // What end_op writes.
  ghost function EndWrites(log: Log): seq<Write>
    reads log, log.bc
    requires log.l.Loggable(log.lh, log.bc.disk) && log.l.Loggable(log.lh, log.mem)
  {
    if log.outstanding == 1 && log.lh != [] then CommitWrites(log.l, log.bc.disk, log.mem, log.lh) else []
  }

  lemma EndFacts(log: Log, p: Plain)
    requires Matches(log, p)
    ensures log.l.Loggable(log.lh, log.bc.disk) && log.l.Loggable(log.lh, log.mem)
    ensures HasFree(log.bc.buf) <==> |log.lh| < NBUF
    ensures Traced(log.bc.start, log.bc.writes, log.bc.disk)
    ensures CrashSafe(log.l, log.bc.disk, EndWrites(log), |log.lh|, p.durable, if log.outstanding == 1 then p.m
      else p.durable)
  {
    Facts(log, p);
    hide Log.Valid, Idle, CrashSafe;
    if log.outstanding == 1 && log.lh != [] {
      CommitIsSafe(log.l, log.bc.disk, log.mem, log.lh, p.durable, p.m);
    } else {
      QuietIsSafe(log.l, log.bc.disk, |log.lh|, p.durable, if log.outstanding == 1 then p.m else p.durable);
    }
  }

  method EndServed(log: Log, ghost p: Plain) returns (ok: bool, ghost ws: seq<Write>)
    requires Matches(log, p) && p.view.outstanding > 0
    modifies log, log.bc
    ensures ok <==> Serves(log.l.size, p, End)
    ensures ok ==> Matches(log, Served(log.l.size, p, End))
    ensures ok ==> log.bc.writes == old(log.bc.writes) + ws && log.bc.disk == Replay(old(log.bc.disk), ws)
    ensures ok ==> CrashSafe(log.l, old(log.bc.disk), ws, |p.view.lh|, p.durable, Served(log.l.size, p, End).durable)
    ensures !ok ==> log.bc.disk == old(log.bc.disk) && log.bc.writes == old(log.bc.writes)
  {
    hide Log.Valid, HasFree, Idle, SameHome, CrashSafe, CommitWrites, Traced, Replay, CrashSafety.Layout.Loggable;
    EndFacts(log, p);
    ghost var d, mem, w := log.bc.disk, log.mem, log.bc.writes;
    ws := EndWrites(log);
    ok := log.EndOp();
    if ok {
      TracedNow(log);
      TracedSince(log.bc.start, w, d, ws, log.bc.disk);
      SameHomeTrans(log.l, log.mem, mem, p.m);
    }
  }

  lemma TracedNow(log: Log)
    requires log.Valid()
    ensures Traced(log.bc.start, log.bc.writes, log.bc.disk)
  {
  }

  function Joined(parts: seq<seq<Write>>): seq<Write> {
    if parts == [] then [] else Joined(parts[..|parts| - 1]) + parts[|parts| - 1]
  }

  // Request i of a run was served as the plain map would, and a crash at any of its disk writes is safe.
  ghost predicate ServedAt(l: Layout, d: Disk, p: Plain, reqs: seq<Request>, answers: seq<Answer>,
      parts: seq<seq<Write>>, i: nat) {
    && i < |reqs| && i < |answers| && i < |parts|
    && var q := After(l.size, p, reqs[..i]);
       && Serves(l.size, q, reqs[i]) && answers[i] == AnswerTo(q, reqs[i])
       && CrashSafe(l, Replay(d, Joined(parts[..i])), parts[i], |q.view.lh|, q.durable,
         Served(l.size, q, reqs[i]).durable)
  }

  /** The cache and the log are transparent and crash safe: a run is served, or panics, exactly where
      the plain map says, with its answers; parts are the disk writes of each request, and a crash
      after any of them, or the reboot after the panic, with any number of further crashes in recovery,
      leaves the home blocks as of the last header write. */
  method Serve(log: Log, reqs: seq<Request>, ghost p: Plain)
      returns (answers: seq<Answer>, ghost parts: seq<seq<Write>>)
    requires Matches(log, p) && LegalRun(log.l, p, reqs)
    modifies log, log.bc
    ensures |answers| == |parts| <= |reqs|
    ensures forall i :: 0 <= i < |answers| ==> ServedAt(log.l, old(log.bc.disk), p, reqs, answers, parts, i)
    ensures |answers| < |reqs| ==> !Serves(log.l.size, After(log.l.size, p, reqs[..|answers|]), reqs[|answers|])
    ensures |answers| == |reqs| ==> Matches(log, After(log.l.size, p, reqs))
    ensures log.bc.writes == old(log.bc.writes) + Joined(parts)
      && log.bc.disk == Replay(old(log.bc.disk), Joined(parts))
    ensures |answers| < |reqs| ==> Survives(log.l, log.bc.disk, After(log.l.size, p, reqs[..|answers|]).durable)
  {
    hide Matches, Legal, CrashSafe, Survives, After, Served, Serves, AnswerTo;
    answers, parts := [], [];
    ghost var d, w := log.bc.disk, log.bc.writes;
    NothingServed(log.l.size, p, reqs);
    while |answers| < |reqs|
      invariant |answers| == |parts| <= |reqs|
      invariant Matches(log, After(log.l.size, p, reqs[..|answers|]))
      invariant log.bc.writes == w + Joined(parts) && log.bc.disk == Replay(d, Joined(parts))
      invariant forall i :: 0 <= i < |answers| ==> ServedAt(log.l, d, p, reqs, answers, parts, i)
    {
      var i := |answers|;
      ghost var q := After(log.l.size, p, reqs[..i]);
      LegalNow(log.l, d, p, reqs, answers, parts);
      AfterNext(log.l.size, p, reqs, i);
      var ok, a;
      ghost var ws;
      ok, a, ws := ServeOne(log, reqs[i], q);
      if !ok { return; }
      OneMoreServed(log.l, d, p, reqs, answers, parts, a, ws);
      JoinedNext(d, parts, ws);
      answers, parts := answers + [a], parts + [ws];
    }
    assert reqs[..|reqs|] == reqs;
  }

  lemma NothingServed(size: nat, p: Plain, reqs: seq<Request>)
    ensures After(size, p, reqs[..0]) == p
  {
  }

  lemma LegalNow(l: Layout, d: Disk, p: Plain, reqs: seq<Request>, answers: seq<Answer>, parts: seq<seq<Write>>)
    requires LegalRun(l, p, reqs) && |answers| < |reqs|
    requires forall i :: 0 <= i < |answers| ==> ServedAt(l, d, p, reqs, answers, parts, i)
    ensures Legal(l, After(l.size, p, reqs[..|answers|]), reqs[|answers|])
  {
    hide CrashSafe, After, Serves, Served, Legal, AnswerTo;
    assert forall i :: 0 <= i < |answers| ==> ServedAt(l, d, p, reqs, answers, parts, i) ==>
      Serves(l.size, After(l.size, p, reqs[..i]), reqs[i]);
    assert Smooth(l.size, p, reqs, |answers|);
  }

  lemma OneMoreServed(l: Layout, d: Disk, p: Plain, reqs: seq<Request>, answers: seq<Answer>, parts: seq<seq<Write>>,
                      a: Answer, ws: seq<Write>)
    requires |answers| == |parts| < |reqs|
    requires forall i :: 0 <= i < |answers| ==> ServedAt(l, d, p, reqs, answers, parts, i)
    requires var q := After(l.size, p, reqs[..|answers|]); var req := reqs[|answers|];
      Serves(l.size, q, req) && a == AnswerTo(q, req)
      && CrashSafe(l, Replay(d, Joined(parts)), ws, |q.view.lh|, q.durable, Served(l.size, q, req).durable)
    ensures forall i :: 0 <= i <= |answers| ==> ServedAt(l, d, p, reqs, answers + [a], parts + [ws], i)
  {
    hide CrashSafe, After, Serves, Served, AnswerTo, Joined, Replay;
    forall i | 0 <= i <= |answers| ensures ServedAt(l, d, p, reqs, answers + [a], parts + [ws], i) {
      assert i < |answers| ==> ServedAt(l, d, p, reqs, answers, parts, i);
      assert (parts + [ws])[..i] == parts[..i];
      assert parts[..|parts|] == parts;
    }
  }

  lemma JoinedNext(d: Disk, parts: seq<seq<Write>>, ws: seq<Write>)
    ensures Joined(parts + [ws]) == Joined(parts) + ws
    ensures Replay(d, Joined(parts + [ws])) == Replay(Replay(d, Joined(parts)), ws)
  {
    assert (parts + [ws])[..|parts|] == parts;
    ReplayConcat(d, Joined(parts), ws);
  }

  /** A run can start from what initlog leaves. */
  lemma Booted(log: Log)
    requires log.Valid() && log.lh == [] && log.mem == log.bc.disk && NoneHeld(log.bc.buf)
    requires log.outstanding == 0 && !log.committing
    ensures Matches(log, Plain(R.LogState(0, false, []), log.bc.disk, log.bc.disk))
  {
    log.NoPins();
  }

  // Every request so far was legal and served.
  ghost predicate Good(l: Layout, p: Plain, reqs: seq<Request>) {
    forall i :: 0 <= i < |reqs| ==>
      Serves(l.size, After(l.size, p, reqs[..i]), reqs[i]) && Legal(l, After(l.size, p, reqs[..i]), reqs[i])
  }

  lemma GoodNext(l: Layout, p: Plain, reqs: seq<Request>, req: Request)
    requires Good(l, p, reqs) && Legal(l, After(l.size, p, reqs), req)
    ensures After(l.size, p, reqs + [req]) == Served(l.size, After(l.size, p, reqs), req)
    ensures Serves(l.size, After(l.size, p, reqs), req) ==> Good(l, p, reqs + [req])
    ensures LegalRun(l, p, reqs + [req]) && Smooth(l.size, p, reqs + [req], |reqs|)
  {
    var all := reqs + [req];
    AfterNext(l.size, p, all, |reqs|);
    assert all[..|reqs|] == reqs && all[..|reqs| + 1] == all;
    hide Serves, Served, Legal, After;
    forall i | 0 <= i < |all|
      ensures i < |reqs| ==> Serves(l.size, After(l.size, p, all[..i]), all[i])
      ensures Legal(l, After(l.size, p, all[..i]), all[i])
    {
      assert i < |reqs| ==> all[..i] == reqs[..i] && all[i] == reqs[i];
    }
  }

  // Three calls have begun and logged the first k of these blocks.
  ghost function Filling(home: seq<nat>, x: Block, k: nat): seq<Request>
    requires k <= |home|
  {
    if k == 0 then [] + [Begin] + [Begin] + [Begin] else Filling(home, x, k - 1) + [Put(home[k - 1], x)]
  }

  lemma {:induction false} FillingRuns(l: Layout, p: Plain, home: seq<nat>, x: Block, k: nat)
    requires l.size > LOGSIZE && p.view == R.LogState(0, false, []) && k <= |home| <= LOGSIZE
    requires forall i :: 0 <= i < |home| ==> home[i] < |p.m| && !l.InLog(home[i])
    requires forall i, j :: 0 <= i < j < |home| ==> home[i] != home[j]
    ensures Good(l, p, Filling(home, x, k))
    ensures var q := After(l.size, p, Filling(home, x, k)); q.view == R.LogState(3, false, home[..k]) && |q.m| == |p.m|
  {
    hide Good, After;
    if k == 0 {
      Nothing(l, p);
      GoodNext(l, p, [], Begin);
      GoodNext(l, p, [] + [Begin], Begin);
      GoodNext(l, p, [] + [Begin] + [Begin], Begin);
    } else {
      FillingRuns(l, p, home, x, k - 1);
      GoodNext(l, p, Filling(home, x, k - 1), Put(home[k - 1], x));
      assert home[..k] == home[..k - 1] + [home[k - 1]];
    }
  }

  lemma Nothing(l: Layout, p: Plain)
    ensures Good(l, p, []) && After(l.size, p, []) == p
  {
  }

  /** With a log of more than LOGSIZE blocks, three calls within their reservations can fill the header, and the
      commit that the last of them asks for panics. */
  lemma FullCommitPanics(l: Layout, p: Plain, home: seq<nat>, x: Block)
    requires l.size > LOGSIZE && p.view == R.LogState(0, false, []) && |home| == LOGSIZE
    requires forall i :: 0 <= i < |home| ==> home[i] < |p.m| && !l.InLog(home[i])
    requires forall i, j :: 0 <= i < j < |home| ==> home[i] != home[j]
    ensures exists reqs ::
      && reqs != [] && LegalRun(l, p, reqs) && Smooth(l.size, p, reqs, |reqs| - 1)
      && reqs[|reqs| - 1] == End && !Serves(l.size, After(l.size, p, reqs[..|reqs| - 1]), End)
  {
    hide Good, After, LegalRun, Smooth;
    FillingRuns(l, p, home, x, LOGSIZE);
    assert home[..LOGSIZE] == home;
    var all := Filling(home, x, LOGSIZE);
    GoodNext(l, p, all, End);
    GoodNext(l, p, all + [End], End);
    GoodNext(l, p, all + [End] + [End], End);
    var reqs := all + [End] + [End] + [End];
    assert reqs[..|reqs| - 1] == all + [End] + [End];
  }

  /** With a log of at most LOGSIZE blocks no commit ever lacks a buffer: log_write panics first. */
  lemma {:induction false} SmallLogCommits(size: nat, p: Plain, reqs: seq<Request>)
    requires size <= LOGSIZE && p.view.lh == []
    ensures |After(size, p, reqs).view.lh| < NBUF && Serves(size, After(size, p, reqs), End)
  {
    if reqs != [] { SmallLogCommits(size, p, reqs[..|reqs| - 1]); }
  }
}
