/** begin_op, log_write, end_op and commit as atomic steps on struct log, each
    under log.lock, interleaved by any number of file system calls. */
module Reservation {
  import opened Options
  import opened Bio
  import opened CrashSafety
  import opened Sets

  const MAXOPBLOCKS: nat := 10

  datatype LogState = LogState(outstanding: int, committing: bool, lh: seq<int>)

  datatype Result = Next(state: LogState) | Sleep | Panic

  // One turn of begin_op's loop.
  function BeginOp(s: LogState): Result {
    if s.committing then Sleep
    else if |s.lh| + (s.outstanding + 1) * MAXOPBLOCKS > LOGSIZE then Sleep
    else Next(s.(outstanding := s.outstanding + 1))
  }

  // log_write of block b, absorbed if the header already names it.
  function LogWrite(size: nat, s: LogState, b: int): Result {
    if |s.lh| >= LOGSIZE || |s.lh| >= size - 1 then Panic
    else if s.outstanding < 1 then Panic
    else Next(s.(lh := if b in s.lh then s.lh else s.lh + [b]))
  }

  // end_op up to the release of log.lock; committing is set when the caller must commit.
  function EndOp(s: LogState): Result {
    var s' := s.(outstanding := s.outstanding - 1);
    if s.committing then Panic
    else if s'.outstanding == 0 then Next(s'.(committing := true))
    else Next(s')
  }

  // commit and the rest of end_op.
  function CommitDone(s: LogState): Result {
    Next(s.(lh := [], committing := false))
  }

  // The running calls: for each, the blocks it has logged so far.
  datatype System = System(log: LogState, ops: seq<set<int>>)

  datatype Action = Begin | Log(op: nat, b: int) | End(op: nat) | Commit

  // A call writes and ends only while it runs, keeps to MAXOPBLOCKS distinct blocks, and only the last one commits.
  ghost predicate Allowed(s: System, a: Action) {
    match a
    case Begin => true
    case Log(op, b) => op < |s.ops| && |s.ops[op] + {b}| <= MAXOPBLOCKS
    case End(op) => op < |s.ops|
    case Commit => s.log.committing
  }

  ghost function Perform(size: nat, s: System, a: Action): Result {
    match a
    case Begin => BeginOp(s.log)
    case Log(op, b) => LogWrite(size, s.log, b)
    case End(op) => EndOp(s.log)
    case Commit => CommitDone(s.log)
  }

  // The system after an action that did not panic; a call that must sleep tries again later.
  ghost function Advance(size: nat, s: System, a: Action): System
    requires Allowed(s, a) && !Perform(size, s, a).Panic?
  {
    match Perform(size, s, a)
    case Sleep => s
    case Next(log) =>
      System(log, match a
                  case Begin => s.ops + [{}]
                  case Log(op, b) => s.ops[op := s.ops[op] + {b}]
                  case End(op) => s.ops[..op] + s.ops[op + 1..]
                  case Commit => s.ops)
  }

  const INIT := System(LogState(0, false, []), [])

  // What the running calls may still log.
  ghost function Unused(ops: seq<set<int>>): int {
    if ops == [] then 0 else MAXOPBLOCKS - |ops[0]| + Unused(ops[1..])
  }

  ghost predicate Inv(s: System) {
    && s.log.outstanding == |s.ops|
    && (s.log.committing ==> s.ops == [])
    && (forall i, j :: 0 <= i < j < |s.log.lh| ==> s.log.lh[i] != s.log.lh[j])
    && (forall i :: 0 <= i < |s.ops| ==> |s.ops[i]| <= MAXOPBLOCKS)
    && (forall i, b :: 0 <= i < |s.ops| && b in s.ops[i] ==> b in s.log.lh)
    && |s.log.lh| + Unused(s.ops) <= LOGSIZE
  }

  lemma {:induction false} UnusedConcat(a: seq<set<int>>, b: seq<set<int>>)
    ensures Unused(a + b) == Unused(a) + Unused(b)
  {
    if a == [] {
      assert a + b == b;
    } else {
      assert (a + b)[1..] == a[1..] + b;
      UnusedConcat(a[1..], b);
    }
  }

  lemma UnusedSplit(ops: seq<set<int>>, i: nat)
    requires i < |ops|
    ensures Unused(ops) == Unused(ops[..i]) + (MAXOPBLOCKS - |ops[i]|) + Unused(ops[i + 1..])
    ensures Unused(ops[..i] + ops[i + 1..]) == Unused(ops[..i]) + Unused(ops[i + 1..])
  {
    assert ops == ops[..i] + ops[i..];
    UnusedConcat(ops[..i], ops[i..]);
    UnusedConcat(ops[..i], ops[i + 1..]);
  }

  lemma UnusedUpdate(ops: seq<set<int>>, i: nat, x: set<int>)
    requires i < |ops|
    ensures Unused(ops[i := x]) == Unused(ops) + |ops[i]| - |x|
  {
    var ops' := ops[i := x];
    UnusedSplit(ops, i);
    UnusedSplit(ops', i);
    assert ops'[..i] == ops[..i] && ops'[i + 1..] == ops[i + 1..];
  }

  lemma {:induction false} UnusedBounds(ops: seq<set<int>>)
    requires forall i :: 0 <= i < |ops| ==> |ops[i]| <= MAXOPBLOCKS
    ensures 0 <= Unused(ops) <= |ops| * MAXOPBLOCKS
  {
    if ops != [] { UnusedBounds(ops[1..]); }
  }

  lemma BeginKeepsInv(size: nat, s: System)
    requires Inv(s)
    ensures Inv(Advance(size, s, Begin))
  {
    UnusedBounds(s.ops);
    UnusedConcat(s.ops, [{}]);
    assert Unused([{}]) == MAXOPBLOCKS;
  }

  lemma WriteKeepsInv(size: nat, s: System, op: nat, b: int)
    requires Inv(s) && Allowed(s, Log(op, b)) && !LogWrite(size, s.log, b).Panic?
    ensures Inv(Advance(size, s, Log(op, b)))
  {
    UnusedUpdate(s.ops, op, s.ops[op] + {b});
    assert b in s.ops[op] ==> s.ops[op] + {b} == s.ops[op];
  }

  lemma EndKeepsInv(size: nat, s: System, op: nat)
    requires Inv(s) && op < |s.ops|
    ensures !EndOp(s.log).Panic? && Inv(Advance(size, s, End(op)))
  {
    UnusedSplit(s.ops, op);
    var ops' := s.ops[..op] + s.ops[op + 1..];
    assert forall i :: 0 <= i < |ops'| ==> ops'[i] == s.ops[if i < op then i else i + 1];
  }

  // A system reached from boot by some interleaving, or None if it panicked or a call broke the rules.
  ghost function Run(size: nat, acts: seq<Action>): Option<System> {
    if acts == [] then Some(INIT)
    else
      var a := acts[|acts| - 1];
      match Run(size, acts[..|acts| - 1])
      case None => None
      case Some(s) => if Allowed(s, a) && !Perform(size, s, a).Panic? then Some(Advance(size, s, a)) else None
  }

  /** In every interleaving: header entries stay distinct, the blocks logged and still reserved
      fit in LOGSIZE, and a commit never runs beside a file system call. */
  lemma {:induction false} ReservationHolds(size: nat, acts: seq<Action>)
    ensures Run(size, acts).Some? ==> Inv(Run(size, acts).value)
  {
    if acts != [] {
      var a := acts[|acts| - 1];
      ReservationHolds(size, acts[..|acts| - 1]);
      if Run(size, acts).Some? {
        var s := Run(size, acts[..|acts| - 1]).value;
        match a
        case Begin => BeginKeepsInv(size, s);
        case Log(op, b) => WriteKeepsInv(size, s, op, b);
        case End(op) => EndKeepsInv(size, s, op);
        case Commit =>
      }
    }
  }

  /** With log.size > LOGSIZE a rule-abiding step panics exactly when it is a log_write
      with the header full, even a log_write that would have been absorbed. */
  lemma PanicsExactly(size: nat, acts: seq<Action>, s: System, a: Action)
    requires size >= 1 && Run(size, acts) == Some(s) && Allowed(s, a)
    ensures Perform(size, s, a).Panic? <==> a.Log? && |s.log.lh| >= if LOGSIZE < size - 1 then LOGSIZE else size - 1
  {
    ReservationHolds(size, acts);
    UnusedBounds(s.ops);
    if a.End? { EndKeepsInv(size, s, a.op); }
  }

  // Blocks that nobody has logged, MAXOPBLOCKS of them for each of n calls.
  ghost predicate FreshFor(lh: seq<int>, anew: seq<set<int>>, n: nat) {
    && |anew| == n
    && (forall i :: 0 <= i < n ==> |anew[i]| == MAXOPBLOCKS && forall b :: b in anew[i] ==> b !in lh)
    && (forall i, j :: 0 <= i < j < n ==> forall b :: b in anew[i] ==> b !in anew[j])
  }

  ghost function All(anew: seq<set<int>>): set<int> {
    if anew == [] then {} else All(anew[..|anew| - 1]) + anew[|anew| - 1]
  }

  // The blocks that a header names.
  ghost function Named(lh: seq<int>): set<int> { set b | b in lh }

  lemma {:induction false} NamedSize(lh: seq<int>)
    requires forall i, j :: 0 <= i < j < |lh| ==> lh[i] != lh[j]
    ensures |Named(lh)| == |lh|
  {
    if lh != [] {
      var rest := lh[..|lh| - 1];
      NamedSize(rest);
      assert Named(lh) == Named(rest) + {lh[|lh| - 1]};
    }
  }

  lemma {:induction false} AllSize(lh: seq<int>, anew: seq<set<int>>)
    requires FreshFor(lh, anew, |anew|)
    ensures |All(anew)| == |anew| * MAXOPBLOCKS && All(anew) !! Named(lh)
    ensures forall b :: b in All(anew) ==> exists i :: 0 <= i < |anew| && b in anew[i]
  {
    if anew != [] {
      var rest, last := anew[..|anew| - 1], anew[|anew| - 1];
      AllSize(lh, rest);
      forall b | b in All(rest) ensures b !in last {
        var i :| 0 <= i < |rest| && b in rest[i];
        assert b in anew[i];
      }
      assert All(rest) !! last;
      forall b | b in All(anew) ensures b !in Named(lh) && exists i :: 0 <= i < |anew| && b in anew[i] {
        if b in last {
          assert b in anew[|anew| - 1];
        } else {
          var i :| 0 <= i < |rest| && b in rest[i];
          assert b in anew[i];
        }
      }
    }
  }

  /** When begin_op lets a call in, in any run: not during a commit, and if and only if the header could
      take MAXOPBLOCKS blocks more from this call and from each one admitted before, were they all new. */
  lemma AdmitsExactly(size: nat, acts: seq<Action>, s: System, anew: seq<set<int>>)
    requires Run(size, acts) == Some(s) && FreshFor(s.log.lh, anew, |s.ops| + 1)
    ensures Perform(size, s, Begin).Next? <==> !s.log.committing && |Named(s.log.lh) + All(anew)| <= LOGSIZE
    ensures Perform(size, s, Begin).Next? <==>
      !s.log.committing && |s.log.lh| + (|s.ops| + 1) * MAXOPBLOCKS <= LOGSIZE
    ensures Perform(size, s, Begin).Next? ==> Advance(size, s, Begin).ops == s.ops + [{}]
    ensures !Perform(size, s, Begin).Next? ==> Advance(size, s, Begin) == s
  {
    ReservationHolds(size, acts);
    AllSize(s.log.lh, anew);
    NamedSize(s.log.lh);
  }

  // The blocks logged since the last commit, and whether a call has been let in since then.
  ghost function Pending(size: nat, acts: seq<Action>): (set<int>, bool) {
    if acts == [] then ({}, false)
    else
      var was, a := acts[..|acts| - 1], acts[|acts| - 1];
      var (blocks, busy) := Pending(size, was);
      match a
      case Log(_, b) => (blocks + {b}, busy)
      case Commit => ({}, false)
      case Begin => (blocks, busy || (Run(size, was).Some? && Perform(size, Run(size, was).value, Begin).Next?))
      case End(_) => (blocks, busy)
  }

  /** In every run the header names exactly the blocks logged since the last commit, and a commit is due
      exactly when calls have been let in since then and all of them have ended. */
  lemma {:induction false} PendingExactly(size: nat, acts: seq<Action>, s: System)
    requires Run(size, acts) == Some(s)
    ensures Named(s.log.lh) == Pending(size, acts).0
    ensures s.log.committing <==> s.ops == [] && Pending(size, acts).1
    ensures s.ops != [] ==> Pending(size, acts).1
  {
    if acts != [] {
      var was, a := acts[..|acts| - 1], acts[|acts| - 1];
      var t := Run(size, was).value;
      PendingExactly(size, was, t);
      ReservationHolds(size, was);
      PendingStep(size, t, a, Pending(size, was).0, Pending(size, was).1);
    }
  }

  lemma PendingStep(size: nat, s: System, a: Action, blocks: set<int>, busy: bool)
    requires Inv(s) && Allowed(s, a) && !Perform(size, s, a).Panic?
    requires Named(s.log.lh) == blocks && (s.log.committing <==> s.ops == [] && busy) && (s.ops != [] ==> busy)
    ensures
      var s' := Advance(size, s, a);
      var busy' := if a.Begin? then busy || Perform(size, s, a).Next? else busy && !a.Commit?;
      && Named(s'.log.lh) == (if a.Log? then blocks + {a.b} else if a.Commit? then {} else blocks)
      && (s'.log.committing <==> s'.ops == [] && busy') && (s'.ops != [] ==> busy')
  {
  }

  // A call that stops logging when it has used its reservation up.
  ghost predicate Thrifty(s: System, a: Action) {
    Allowed(s, a) && (a.Log? ==> |s.ops[a.op]| < MAXOPBLOCKS)
  }

  // Such a call never panics if log.size > LOGSIZE.
  lemma ThriftyNeverPanics(size: nat, acts: seq<Action>, s: System, a: Action)
    requires size > LOGSIZE && Run(size, acts) == Some(s) && Thrifty(s, a)
    ensures !Perform(size, s, a).Panic?
  {
    PanicsExactly(size, acts, s, a);
    ReservationHolds(size, acts);
    if a.Log? {
      UnusedSplit(s.ops, a.op);
      UnusedBounds(s.ops[..a.op]);
      UnusedBounds(s.ops[a.op + 1..]);
    }
  }

  lemma RunStep(size: nat, acts: seq<Action>, s: System, a: Action)
    requires Run(size, acts) == Some(s) && Allowed(s, a) && !Perform(size, s, a).Panic?
    ensures Run(size, acts + [a]) == Some(Advance(size, s, a))
  {
    assert (acts + [a])[..|acts|] == acts;
  }

  // Three calls that have logged the first n blocks, ten each in turn.
  ghost function Filled(n: nat): System {
    System(LogState(3, false, seq(n, i => i)), [Range(0, Clamp(n)), Range(10, Clamp(n - 10)), Range(20, Clamp(n - 20))])
  }

  function Clamp(n: int): nat {
    if n < 0 then 0 else if n > 10 then 10 else n
  }

  ghost function FillActs(n: nat): seq<Action> {
    if n == 0 then [Begin, Begin, Begin] else FillActs(n - 1) + [Log((n - 1) / 10, n - 1)]
  }

  lemma FillStart(size: nat)
    ensures Run(size, FillActs(0)) == Some(Filled(0))
  {
    hide Range;
    RangeIs(0, 0);
    RangeIs(10, 0);
    RangeIs(20, 0);
    var s1, s2 := System(LogState(1, false, []), [{}]), System(LogState(2, false, []), [{}, {}]);
    RunStep(size, [], INIT, Begin);
    assert Advance(size, INIT, Begin) == s1 && [] + [Begin] == [Begin];
    RunStep(size, [Begin], s1, Begin);
    assert Advance(size, s1, Begin) == s2 && [Begin] + [Begin] == [Begin, Begin];
    RunStep(size, [Begin, Begin], s2, Begin);
    assert Filled(0) == Advance(size, s2, Begin) && [Begin, Begin] + [Begin] == FillActs(0);
  }

  // The next block is within its call's reservation.
  lemma FilledThrifty(n: nat)
    requires n < LOGSIZE
    ensures Thrifty(Filled(n), Log(n / 10, n)) && Filled(n).ops[n / 10] + {n} == Filled(n + 1).ops[n / 10]
  {
    hide Range;
    var op := n / 10;
    var m := n - 10 * op;
    RangeIs(10 * op, m);
    RangeIs(10 * op, m + 1);
    assert Range(10 * op, m) + {n} == Range(10 * op, m + 1);
    if op == 0 {
      assert Filled(n).ops[0] == Range(0, m) && Filled(n + 1).ops[0] == Range(0, m + 1);
    } else if op == 1 {
      assert Filled(n).ops[1] == Range(10, m) && Filled(n + 1).ops[1] == Range(10, m + 1);
    } else {
      assert op == 2 && Filled(n).ops[2] == Range(20, m) && Filled(n + 1).ops[2] == Range(20, m + 1);
    }
  }

  lemma FillStep(size: nat, n: nat)
    requires n < LOGSIZE && n < size - 1
    ensures var s, a := Filled(n), Log(n / 10, n);
            Allowed(s, a) && !Perform(size, s, a).Panic? && Advance(size, s, a) == Filled(n + 1)
  {
    hide Range;
    var s, op := Filled(n), n / 10;
    FilledThrifty(n);
    assert n !in s.log.lh && s.log.lh + [n] == Filled(n + 1).log.lh;
    assert s.ops[op := Filled(n + 1).ops[op]] == Filled(n + 1).ops;
  }

  lemma {:induction false} FillRuns(size: nat, n: nat)
    requires n <= LOGSIZE && n <= size - 1
    ensures Run(size, FillActs(n)) == Some(Filled(n))
  {
    if n == 0 {
      FillStart(size);
    } else {
      FillRuns(size, n - 1);
      FillStep(size, n - 1);
      RunStep(size, FillActs(n - 1), Filled(n - 1), Log((n - 1) / 10, n - 1));
    }
  }

  /** The hypothesis is needed: log.size <= LOGSIZE, which mkfs chooses, lets three
      thrifty calls run into the panic. */
  lemma SmallLogPanics(size: nat)
    requires 1 <= size <= LOGSIZE
    ensures exists acts, s, a :: Run(size, acts) == Some(s) && Thrifty(s, a) && Perform(size, s, a).Panic?
  {
    var n := size - 1;
    FillRuns(size, n);
    FilledThrifty(n);
    var s, a := Filled(n), Log(n / 10, n);
    assert Run(size, FillActs(n)) == Some(s) && Thrifty(s, a) && Perform(size, s, a).Panic?;
  }

  /** And so is thrift: whatever the size of the log, a call within its MAXOPBLOCKS distinct
      blocks can panic by logging one of them again. */
  lemma AbsorbedWritePanics(size: nat)
    requires size > LOGSIZE
    ensures exists acts, s, op: nat, b ::
              Run(size, acts) == Some(s) && Allowed(s, Log(op, b)) && b in s.ops[op]
                && Perform(size, s, Log(op, b)).Panic?
  {
    hide Range;
    FillRuns(size, LOGSIZE);
    RangeIs(0, 10);
    var s := Filled(LOGSIZE);
    assert s.ops[0] == Range(0, 10) && s.ops[0] + {0} == s.ops[0];
    assert Allowed(s, Log(0, 0)) && Perform(size, s, Log(0, 0)).Panic?;
  }
}
