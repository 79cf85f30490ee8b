/** Processes, their locks and the scheduler as a transition system
    (kernel/proc.c).  A step of a CPU runs from one lock operation or context
    switch to the next; any CPU may take the next step. */
module Proc {
  const NPROC: nat := 64
  const INIT: nat := 0               // the first process that allocproc finds
  const NONE: int := -1

  datatype Life = UNUSED | USED | SLEEPING | RUNNABLE | RUNNING | ZOMBIE

  // A process pointer used as a channel, or anything else.
  datatype Chan = NoChan | Of(p: int) | Other(n: nat)

  // Where a process's kernel thread is.  Names ending in 2 hold the lock of their argument.
  datatype Pc =
    | Run                            // no lock held: user code, or kernel code between these
    | Fork2(np: nat)                 // allocproc looks at np
    | ForkBuild2(np: nat)            // np is this fork's child
    | ForkBuilt(np: nat)
    | ForkAdopt(np: nat)             // holds wait_lock
    | ForkReady(np: nat)
    | ForkGo2(np: nat)
    | Kill2(q: nat)
    | Wake2(q: nat, n: nat)          // wakeup(Other(n)) looks at q
    | SleepOwn(n: nat)               // holds its own lock
    | Slept(n: nat)
    | Reparent(k: nat)               // exit, holds wait_lock from here to ExitSet
    | ReparentWake(k: nat, j: nat)   // wakeup(initproc) after adopting child k
    | ReparentWake2(k: nat, j: nat)
    | ExitWake(j: nat)               // wakeup(parent)
    | ExitWake2(j: nat)
    | ExitLast
    | ExitSet                        // holds its own lock too
    | Dead
    | WaitScan(k: nat, kids: bool)   // wait, holds wait_lock from here to WaitDrop
    | WaitScan2(k: nat, kids: bool)
    | WaitKilled
    | WaitKilledOwn                  // holds its own lock too
    | WaitSleep
    | WaitDrop                       // holds its own lock too
    | WaitDoze                       // holds its own lock only
    | Waiting
    | WaitAgain

  // On its way between a CPU and the scheduler: Yield, Leave and Arrive hold the process's own lock.
  datatype Switch = On | Yield | Leave | Off | Arrive

  // A CPU in the scheduler with no lock or p's lock, in p's thread, or back from it.
  datatype Mode = Idle | Holding(p: nat) | Runs(p: nat) | Back(p: nat)

  datatype State = State(
    st: seq<Life>, chan: seq<Chan>, parent: seq<int>, killed: seq<bool>, lock: seq<int>,
    pc: seq<Pc>, sw: seq<Switch>, on: seq<int>, mode: seq<Mode>, cproc: seq<int>, wlock: int)

  ghost predicate Sized(s: State) {
    |s.st| == |s.chan| == |s.parent| == |s.killed| == |s.lock| == |s.pc| == |s.sw| == |s.on| == NPROC
      && |s.mode| == |s.cproc|
  }

  predicate LockFree(pc: Pc) { pc.Run? || pc.ForkBuilt? || pc.ForkReady? || pc.WaitAgain? }

  // The p->lock that thread self holds, given where it is.
  function Held(self: nat, pc: Pc, sw: Switch): int {
    if sw == Off then NONE
    else if sw != On then self
    else match pc
      case Fork2(np) => np
      case ForkBuild2(np) => np
      case ForkGo2(np) => np
      case Kill2(q) => q
      case Wake2(q, _) => q
      case ReparentWake2(_, j) => j
      case ExitWake2(j) => j
      case WaitScan2(k, _) => k
      case SleepOwn(_) => self
      case ExitSet => self
      case WaitKilledOwn => self
      case WaitDrop => self
      case WaitDoze => self
      case _ => NONE
  }

  predicate HoldsWait(pc: Pc, sw: Switch) {
    sw == On && (pc.ForkAdopt? || Exiting(pc) || pc.WaitScan? || pc.WaitScan2? || pc.WaitKilled? || pc.WaitKilledOwn?
      || pc.WaitSleep? || pc.WaitDrop?)
  }

  predicate Exiting(pc: Pc) {
    pc.Reparent? || pc.ReparentWake? || pc.ReparentWake2? || pc.ExitWake? || pc.ExitWake2? || pc.ExitLast?
      || pc.ExitSet?
  }

  // Each CPU's process, and the CPU of each process that is on one.
  ghost predicate Placed(s: State)
    requires Sized(s)
  {
    && (forall c :: 0 <= c < |s.mode| ==> match s.mode[c]
          case Runs(p) => p < NPROC && s.sw[p] != Off && s.on[p] == c && s.cproc[c] == p
          case Back(p) => p < NPROC && s.sw[p] == Off && s.st[p] != RUNNING && s.cproc[c] == p
          case Holding(p) => p < NPROC && s.cproc[c] == NONE
          case Idle => s.cproc[c] == NONE)
    && (forall p :: 0 <= p < NPROC && s.sw[p] != Off ==> 0 <= s.on[p] < |s.mode| && s.mode[s.on[p]] == Runs(p))
    && (forall p :: 0 <= p < NPROC ==> (s.st[p] == RUNNING <==> s.sw[p] == On || s.sw[p] == Yield || s.sw[p] == Arrive))
    && (forall p :: 0 <= p < NPROC && s.sw[p] == Leave ==> s.st[p] in {RUNNABLE, SLEEPING, ZOMBIE})
  }

  function CpuHolds(s: State, c: nat): int
    requires Sized(s) && c < |s.mode|
  {
    match s.mode[c]
    case Idle => NONE
    case Holding(p) => p
    case Back(p) => p
    case Runs(p) => if p < NPROC then Held(p, s.pc[p], s.sw[p]) else NONE
  }

  // Every lock is held by the CPU whose thread is where it holds it.
  ghost predicate Locked(s: State)
    requires Sized(s)
  {
    ProcLocks(s) && WaitLock(s)
  }

  ghost predicate ProcLocks(s: State)
    requires Sized(s)
  {
    && (forall c {:trigger s.mode[c]} {:trigger CpuHolds(s, c)} :: 0 <= c < |s.mode| && CpuHolds(s, c) != NONE ==>
         0 <= CpuHolds(s, c) < NPROC && s.lock[CpuHolds(s, c)] == c)
    && (forall x {:trigger s.lock[x]} :: 0 <= x < NPROC && s.lock[x] != NONE ==>
         0 <= s.lock[x] < |s.mode| && CpuHolds(s, s.lock[x]) == x)
  }

  ghost predicate WaitLock(s: State)
    requires Sized(s)
  {
    && (forall p :: 0 <= p < NPROC && HoldsWait(s.pc[p], s.sw[p]) ==> s.wlock == s.on[p])
    && (s.wlock != NONE ==> 0 <= s.wlock < |s.mode| && s.mode[s.wlock].Runs? && WaitHolder(s, s.mode[s.wlock].p))
  }

  predicate WaitHolder(s: State, p: nat)
    requires Sized(s)
  {
    p < NPROC && HoldsWait(s.pc[p], s.sw[p])
  }

  // A step of CPU c: of the scheduler, or of the process it runs.
  datatype Action =
    | Pick(p: nat) | Check | Drop | Ring(n: nat)
    | YieldLock | YieldSet | SwitchOut | Arrived
    | ForkLook(np: nat) | ForkTake | ForkFail | ForkUnlock | ForkWait | ForkParent | ForkLock | ForkRun
    | KillLock(q: nat) | KillDo | WakeLock(q: nat, n: nat) | WakeDo | SleepLock(n: nat) | SleepDo
    | ExitStart | ReparentStep | ReparentLock | ReparentDo | ExitWakeLock | ExitWakeDo | ExitLock | ExitDo
    | WaitStart | WaitLook | WaitDo(fail: bool) | KilledLock | KilledDo | WaitLock | WaitUnlock | WaitSet

  // Steps of the scheduler loop, and of the wakeup(Other(n)) of a device interrupt on a CPU with
  // no process: Pick takes the lock and Ring does the rest.  An interrupt that finds a thread
  // holding no lock can be put down to a further idle CPU, since there may be any number.
  function Scheduler(s: State, c: nat, a: Action): (r: State)
    requires Sized(s) && c < |s.mode|
    ensures Sized(r)
  {
    match a
    case Pick(p) =>
      if s.mode[c] == Idle && p < NPROC && s.lock[p] == NONE then
        s.(lock := s.lock[p := c], mode := s.mode[c := Holding(p)])
      else s
    case Check =>
      if s.mode[c].Holding? && s.mode[c].p < NPROC then
        var p := s.mode[c].p;
        if s.st[p] == RUNNABLE then
          s.(st := s.st[p := RUNNING], cproc := s.cproc[c := p], mode := s.mode[c := Runs(p)], sw := s.sw[p := Arrive],
            on := s.on[p := c])
        else s.(lock := s.lock[p := NONE], mode := s.mode[c := Idle])
      else s
    case Ring(n) =>
      if s.mode[c].Holding? && s.mode[c].p < NPROC then
        var p := s.mode[c].p;
        s.(st := Woken(s, p, Other(n)), lock := s.lock[p := NONE], mode := s.mode[c := Idle])
      else s
    case Drop =>
      if s.mode[c].Back? && s.mode[c].p < NPROC then
        s.(cproc := s.cproc[c := NONE], lock := s.lock[s.mode[c].p := NONE], mode := s.mode[c := Idle])
      else s
    case _ => s
  }

  // Steps between a process and the scheduler; p is the process that c runs.
  function Switching(s: State, c: nat, p: nat, a: Action): (r: State)
    requires Sized(s) && c < |s.mode| && p < NPROC
    ensures Sized(r)
  {
    match a
    case YieldLock =>
      if s.sw[p] == On && LockFree(s.pc[p]) && s.lock[p] == NONE then
        s.(lock := s.lock[p := c], sw := s.sw[p := Yield])
      else s
    case YieldSet => if s.sw[p] == Yield then s.(st := s.st[p := RUNNABLE], sw := s.sw[p := Leave]) else s
    case SwitchOut => if s.sw[p] == Leave then s.(sw := s.sw[p := Off], mode := s.mode[c := Back(p)]) else s
    case Arrived =>
      if s.sw[p] == Arrive then
        var t := s.(lock := s.lock[p := NONE], sw := s.sw[p := On]);
        if s.pc[p] == Waiting then t.(chan := s.chan[p := NoChan], pc := s.pc[p := WaitAgain])
        else if s.pc[p].Slept? then t.(chan := s.chan[p := NoChan], pc := s.pc[p := Run])
        else t
      else s
    case _ => s
  }

  // freeproc, apart from memory.
  function Freed(s: State, k: nat): (r: State)
    requires Sized(s) && k < NPROC
    ensures Sized(r)
  {
    s.(st := s.st[k := UNUSED], chan := s.chan[k := NoChan], parent := s.parent[k := NONE],
      killed := s.killed[k := false])
  }

  // fork
  function Forking(s: State, c: nat, p: nat, a: Action): (r: State)
    requires Sized(s) && c < |s.mode| && p < NPROC
    ensures Sized(r)
  {
    var pc := s.pc[p];
    match a
    case ForkLook(np) =>
      if pc == Run && np < NPROC && s.lock[np] == NONE then
        s.(lock := s.lock[np := c], pc := s.pc[p := Fork2(np)])
      else s
    case ForkTake =>
      if pc.Fork2? && pc.np < NPROC then
        if s.st[pc.np] == UNUSED then s.(st := s.st[pc.np := USED], pc := s.pc[pc.np := Run][p := ForkBuild2(pc.np)])
        else s.(lock := s.lock[pc.np := NONE], pc := s.pc[p := Run])
      else s
    case ForkFail =>
      if pc.ForkBuild2? && pc.np < NPROC then
        var t := Freed(s, pc.np);
        t.(lock := s.lock[pc.np := NONE], pc := s.pc[p := Run])
      else s
    case ForkUnlock =>
      if pc.ForkBuild2? && pc.np < NPROC then
        s.(lock := s.lock[pc.np := NONE], pc := s.pc[p := ForkBuilt(pc.np)])
      else s
    case ForkWait => if pc.ForkBuilt? && s.wlock == NONE then s.(wlock := c, pc := s.pc[p := ForkAdopt(pc.np)]) else s
    case ForkParent =>
      if pc.ForkAdopt? && pc.np < NPROC then
        s.(parent := s.parent[pc.np := p], wlock := NONE, pc := s.pc[p := ForkReady(pc.np)])
      else s
    case ForkLock =>
      if pc.ForkReady? && pc.np < NPROC && s.lock[pc.np] == NONE then
        s.(lock := s.lock[pc.np := c], pc := s.pc[p := ForkGo2(pc.np)])
      else s
    case ForkRun =>
      if pc.ForkGo2? && pc.np < NPROC then
        s.(st := s.st[pc.np := RUNNABLE], lock := s.lock[pc.np := NONE], pc := s.pc[p := Run])
      else s
    case _ => s
  }

  // wakeup's test of q
  function Woken(s: State, q: nat, chan: Chan): (r: seq<Life>)
    requires Sized(s) && q < NPROC
    ensures |r| == NPROC
  {
    if s.st[q] == SLEEPING && s.chan[q] == chan then s.st[q := RUNNABLE] else s.st
  }

  // kill, and sleep and wakeup on channels that are not processes
  function Signals(s: State, c: nat, p: nat, a: Action): (r: State)
    requires Sized(s) && c < |s.mode| && p < NPROC
    ensures Sized(r)
  {
    var pc := s.pc[p];
    match a
    case KillLock(q) =>
      if pc == Run && q < NPROC && s.lock[q] == NONE then
        s.(lock := s.lock[q := c], pc := s.pc[p := Kill2(q)])
      else s
    case KillDo =>
      if pc.Kill2? && pc.q < NPROC then
        s.(killed := s.killed[pc.q := true], st := if s.st[pc.q] == SLEEPING then s.st[pc.q := RUNNABLE] else s.st,
           lock := s.lock[pc.q := NONE], pc := s.pc[p := Run])
      else s
    case WakeLock(q, n) =>
      if pc == Run && q < NPROC && q != p && s.lock[q] == NONE then
        s.(lock := s.lock[q := c], pc := s.pc[p := Wake2(q, n)])
      else s
    case WakeDo =>
      if pc.Wake2? && pc.q < NPROC then
        s.(st := Woken(s, pc.q, Other(pc.n)), lock := s.lock[pc.q := NONE], pc := s.pc[p := Run])
      else s
    case SleepLock(n) =>
      if pc == Run && s.lock[p] == NONE then
        s.(lock := s.lock[p := c], pc := s.pc[p := SleepOwn(n)])
      else s
    case SleepDo =>
      if pc.SleepOwn? then
        s.(chan := s.chan[p := Other(pc.n)], st := s.st[p := SLEEPING], sw := s.sw[p := Leave],
           pc := s.pc[p := Slept(pc.n)])
      else s
    case _ => s
  }

  // exit, as far as its children are concerned
  function Reparents(s: State, c: nat, p: nat, a: Action): (r: State)
    requires Sized(s) && c < |s.mode| && p < NPROC
    ensures Sized(r)
  {
    var pc := s.pc[p];
    match a
    case ExitStart =>
      if pc == Run && p != INIT && s.wlock == NONE then s.(wlock := c, pc := s.pc[p := Reparent(0)])
      else s
    case ReparentStep =>
      if pc.Reparent? then
        if pc.k >= NPROC then s.(pc := s.pc[p := ExitWake(0)])
        else if s.parent[pc.k] == p then s.(parent := s.parent[pc.k := INIT], pc := s.pc[p := ReparentWake(pc.k, 0)])
        else s.(pc := s.pc[p := Reparent(pc.k + 1)])
      else s
    case ReparentLock =>
      if pc.ReparentWake? then
        if pc.j >= NPROC then s.(pc := s.pc[p := Reparent(pc.k + 1)])
        else if pc.j == p then s.(pc := s.pc[p := ReparentWake(pc.k, pc.j + 1)])
        else if s.lock[pc.j] == NONE then s.(lock := s.lock[pc.j := c], pc := s.pc[p := ReparentWake2(pc.k, pc.j)])
        else s
      else s
    case ReparentDo =>
      if pc.ReparentWake2? && pc.j < NPROC then
        s.(st := Woken(s, pc.j, Of(INIT)), lock := s.lock[pc.j := NONE], pc := s.pc[p := ReparentWake(pc.k, pc.j + 1)])
      else s
    case _ => s
  }

  // The rest of exit.
  function Exit(s: State, c: nat, p: nat, a: Action): (r: State)
    requires Sized(s) && c < |s.mode| && p < NPROC
    ensures Sized(r)
  {
    var pc := s.pc[p];
    match a
    case ExitWakeLock =>
      if pc.ExitWake? then
        if pc.j >= NPROC then s.(pc := s.pc[p := ExitLast])
        else if pc.j == p then s.(pc := s.pc[p := ExitWake(pc.j + 1)])
        else if s.lock[pc.j] == NONE then s.(lock := s.lock[pc.j := c], pc := s.pc[p := ExitWake2(pc.j)])
        else s
      else s
    case ExitWakeDo =>
      if pc.ExitWake2? && pc.j < NPROC then
        s.(st := Woken(s, pc.j, Of(s.parent[p])), lock := s.lock[pc.j := NONE], pc := s.pc[p := ExitWake(pc.j + 1)])
      else s
    case ExitLock =>
      if pc == ExitLast && s.lock[p] == NONE then
        s.(lock := s.lock[p := c], pc := s.pc[p := ExitSet])
      else s
    case ExitDo =>
      if pc == ExitSet then
        s.(st := s.st[p := ZOMBIE], wlock := NONE, sw := s.sw[p := Leave], pc := s.pc[p := Dead])
      else s
    case _ => s
  }

  // wait looks for a child that has exited.
  function WaitScans(s: State, c: nat, p: nat, a: Action): (r: State)
    requires Sized(s) && c < |s.mode| && p < NPROC
    ensures Sized(r)
  {
    var pc := s.pc[p];
    match a
    case WaitStart =>
      if (pc == Run || pc == WaitAgain) && s.wlock == NONE then
        s.(wlock := c, pc := s.pc[p := WaitScan(0, false)])
      else s
    case WaitLook =>
      if pc.WaitScan? then
        if pc.k >= NPROC then if pc.kids then s.(pc := s.pc[p := WaitKilled])
          else s.(wlock := NONE, pc := s.pc[p := Run])
        else if s.parent[pc.k] != p then s.(pc := s.pc[p := WaitScan(pc.k + 1, pc.kids)])
        else if s.lock[pc.k] == NONE then s.(lock := s.lock[pc.k := c], pc := s.pc[p := WaitScan2(pc.k, pc.kids)])
        else s
      else s
    case WaitDo(fail) =>
      if pc.WaitScan2? && pc.k < NPROC then
        var t := s.(lock := s.lock[pc.k := NONE]);
        if s.st[pc.k] != ZOMBIE then t.(pc := s.pc[p := WaitScan(pc.k + 1, true)])
        else if fail then t.(wlock := NONE, pc := s.pc[p := Run])
        else Freed(t, pc.k).(wlock := NONE, pc := s.pc[p := Run])
      else s
    case _ => s
  }

  // wait goes to sleep.
  function WaitSleeps(s: State, c: nat, p: nat, a: Action): (r: State)
    requires Sized(s) && c < |s.mode| && p < NPROC
    ensures Sized(r)
  {
    var pc := s.pc[p];
    match a
    case KilledLock =>
      if pc == WaitKilled && s.lock[p] == NONE then
        s.(lock := s.lock[p := c], pc := s.pc[p := WaitKilledOwn])
      else s
    case KilledDo =>
      if pc == WaitKilledOwn then
        var t := s.(lock := s.lock[p := NONE]);
        if s.killed[p] then t.(wlock := NONE, pc := s.pc[p := Run]) else t.(pc := s.pc[p := WaitSleep])
      else s
    case WaitLock =>
      if pc == WaitSleep && s.lock[p] == NONE then
        s.(lock := s.lock[p := c], pc := s.pc[p := WaitDrop])
      else s
    case WaitUnlock => if pc == WaitDrop then s.(wlock := NONE, pc := s.pc[p := WaitDoze]) else s
    case WaitSet =>
      if pc == WaitDoze then
        s.(chan := s.chan[p := Of(p)], st := s.st[p := SLEEPING], sw := s.sw[p := Leave], pc := s.pc[p := Waiting])
      else s
    case _ => s
  }

  /** One step of CPU c; a step that is not possible leaves the state as it is. */
  function Step(s: State, c: nat, a: Action): (r: State)
    requires Sized(s)
    ensures Sized(r)
  {
    if c >= |s.mode| then s
    else if a.Pick? || a.Check? || a.Drop? || a.Ring? then Scheduler(s, c, a)
    else if !s.mode[c].Runs? || s.mode[c].p >= NPROC then s
    else
      var p := s.mode[c].p;
      if s.sw[p] != On || a.YieldLock? then Switching(s, c, p, a)
      else if a.ForkLook? || a.ForkTake? || a.ForkFail? || a.ForkUnlock? || a.ForkWait? || a.ForkParent? || a.ForkLock?
        || a.ForkRun? then
        Forking(s, c, p, a)
      else if a.KillLock? || a.KillDo? || a.WakeLock? || a.WakeDo? || a.SleepLock? || a.SleepDo? then
        Signals(s, c, p, a)
      else if a.ExitStart? || a.ReparentStep? || a.ReparentLock? || a.ReparentDo? then Reparents(s, c, p, a)
      else if a.ExitWakeLock? || a.ExitWakeDo? || a.ExitLock? || a.ExitDo? then Exit(s, c, p, a)
      else if a.WaitStart? || a.WaitLook? || a.WaitDo? then WaitScans(s, c, p, a)
      else WaitSleeps(s, c, p, a)
  }

  ghost predicate RunsOn(s: State, c: nat, p: nat) {
    Sized(s) && c < |s.mode| && p < NPROC && s.mode[c] == Runs(p)
  }

  // The locks that p's thread takes or drops on its way from one place to another.
  ghost predicate Moves(s: State, s': State, c: nat, p: nat)
    requires RunsOn(s, c, p) && Sized(s')
  {
    && s'.mode == s.mode && s'.on == s.on && s'.cproc == s.cproc && s.sw[p] != Off && s'.sw[p] != Off
    && (forall q :: 0 <= q < NPROC && q != p ==> s'.sw[q] == s.sw[q] && (s.sw[q] == Off || s'.pc[q] == s.pc[q]))
    && LockMoves(s.lock, s'.lock, Held(p, s.pc[p], s.sw[p]), Held(p, s'.pc[p], s'.sw[p]), c)
    && WaitMoves(s.wlock, s'.wlock, HoldsWait(s.pc[p], s.sw[p]), HoldsWait(s'.pc[p], s'.sw[p]), c)
  }

  ghost predicate LockMoves(was: seq<int>, now: seq<int>, h: int, h': int, c: int) {
    || (h' == h && now == was)
    || (h == NONE && 0 <= h' < |was| && was[h'] == NONE && now == was[h' := c])
    || (0 <= h < |was| && h' == NONE && now == was[h := NONE])
  }

  ghost predicate WaitMoves(was: int, now: int, w: bool, w': bool, c: int) {
    (w' == w && now == was) || (!w && w' && was == NONE && now == c) || (w && !w' && now == NONE)
  }

  lemma MovesLocked(s: State, s': State, c: nat, p: nat)
    requires RunsOn(s, c, p) && Sized(s') && Placed(s) && Locked(s) && Moves(s, s', c, p)
    ensures Locked(s')
  {
    hide Held, Exiting;
    forall q | 0 <= q < NPROC && HoldsWait(s'.pc[q], s'.sw[q]) ensures s'.wlock == s'.on[q] {
      if q != p { assert HoldsWait(s.pc[q], s.sw[q]) && s.wlock == s.on[q] && s.on[q] != c; }
    }
    if s'.wlock != NONE && s'.wlock == s.wlock {
      var q := s.mode[s.wlock].p;
      assert WaitHolder(s, q) && s.on[q] == s.wlock && s.sw[q] == On;
      assert WaitHolder(s', q);
    }
    forall d | 0 <= d < |s.mode| && d != c ensures CpuHolds(s', d) == CpuHolds(s, d) { assert s.mode[d] != Runs(p); }
    LocksMoved(s, s', c);
  }

  // One CPU takes or drops one lock.
  lemma LocksMoved(s: State, s': State, c: nat)
    requires Sized(s) && Sized(s') && ProcLocks(s) && c < |s.mode| == |s'.mode|
    requires forall d :: 0 <= d < |s.mode| && d != c ==> CpuHolds(s', d) == CpuHolds(s, d)
    requires LockMoves(s.lock, s'.lock, CpuHolds(s, c), CpuHolds(s', c), c)
    ensures ProcLocks(s')
  {
    hide CpuHolds;
    forall d | 0 <= d < |s'.mode| && CpuHolds(s', d) != NONE ensures 0 <= CpuHolds(s', d) < NPROC
      && s'.lock[CpuHolds(s', d)] == d {
      assert CpuHolds(s, d) != NONE ==> 0 <= CpuHolds(s, d) < NPROC;
    }
    forall x | 0 <= x < NPROC && s'.lock[x] != NONE ensures 0 <= s'.lock[x] < |s'.mode|
      && CpuHolds(s', s'.lock[x]) == x {
      if s.lock[x] != NONE { assert CpuHolds(s, s.lock[x]) == x; }
    }
  }

  // p changes the life of no process but itself and the one whose lock it holds, which is not running.
  ghost predicate Touches(s: State, s': State, p: nat)
    requires Sized(s) && Sized(s') && p < NPROC
  {
    && (forall x :: 0 <= x < NPROC && x != p ==>
          s'.st[x] == s.st[x] || (Held(p, s.pc[p], s.sw[p]) == x && s.st[x] != RUNNING && s'.st[x] != RUNNING))
    && (s'.st[p] == RUNNING <==> s'.sw[p] == On || s'.sw[p] == Yield)
    && (s'.sw[p] == Leave ==> s'.st[p] in {RUNNABLE, SLEEPING, ZOMBIE})
    && (s'.sw[p] != Arrive || s' == s)
  }

  lemma TouchesPlaced(s: State, s': State, c: nat, p: nat)
    requires RunsOn(s, c, p) && Sized(s') && Placed(s) && Locked(s) && Moves(s, s', c, p) && Touches(s, s', p)
    ensures Placed(s')
  {
    hide LockMoves, WaitMoves, HoldsWait;
    forall x | 0 <= x < NPROC && x != p && s'.st[x] != s.st[x] ensures s.sw[x] == Off {
      assert CpuHolds(s, c) == x && s.lock[x] == c;
      NotLeaving(s, c, p, x);
    }
  }

  lemma NotLeaving(s: State, c: nat, p: nat, x: nat)
    requires RunsOn(s, c, p) && Placed(s) && Locked(s) && x < NPROC && x != p && s.lock[x] == c
    ensures s.sw[x] != Leave
  {
    if s.sw[x] == Leave { LeaveHolds(s, x); }
  }

  // A forked child is its parent's alone until it is made runnable.
  ghost predicate Forks(s: State)
    requires Sized(s)
  {
    && (forall p :: 0 <= p < NPROC && Child(s.pc[p]) != NONE ==>
          0 <= Child(s.pc[p]) < NPROC && s.st[Child(s.pc[p])] == USED
          && s.parent[Child(s.pc[p])] == if s.pc[p].ForkReady? || s.pc[p].ForkGo2? then p else NONE)
    && (forall p, q :: 0 <= p < NPROC && 0 <= q < NPROC && p != q && Child(s.pc[p]) != NONE ==>
         Child(s.pc[p]) != Child(s.pc[q]))
  }

  function Child(pc: Pc): int {
    match pc
    case ForkBuild2(np) => np
    case ForkBuilt(np) => np
    case ForkAdopt(np) => np
    case ForkReady(np) => np
    case ForkGo2(np) => np
    case _ => NONE
  }

  lemma SignalsMoves(s: State, c: nat, p: nat, a: Action)
    requires RunsOn(s, c, p) && s.sw[p] == On
    ensures Signals(s, c, p, a) == s || Moves(s, Signals(s, c, p, a), c, p)
  {
    var s' := Signals(s, c, p, a);
    if s' != s { WalkMoves(s, s', c, p); }
  }

  lemma SignalsTouches(s: State, c: nat, p: nat, a: Action)
    requires RunsOn(s, c, p) && s.sw[p] == On && s.st[p] == RUNNING
    ensures Signals(s, c, p, a) == s || Touches(s, Signals(s, c, p, a), p)
  {
  }

  lemma ReparentsMoves(s: State, c: nat, p: nat, a: Action)
    requires RunsOn(s, c, p) && s.sw[p] == On
    ensures Reparents(s, c, p, a) == s || Moves(s, Reparents(s, c, p, a), c, p)
  {
    var s' := Reparents(s, c, p, a);
    if s' != s { WalkMoves(s, s', c, p); }
  }

  lemma ReparentsTouches(s: State, c: nat, p: nat, a: Action)
    requires RunsOn(s, c, p) && s.sw[p] == On && s.st[p] == RUNNING
    ensures Reparents(s, c, p, a) == s || Touches(s, Reparents(s, c, p, a), p)
  {
  }

  lemma ExitMoves(s: State, c: nat, p: nat, a: Action)
    requires RunsOn(s, c, p) && s.sw[p] == On
    ensures Exit(s, c, p, a) == s || Moves(s, Exit(s, c, p, a), c, p)
  {
    var s' := Exit(s, c, p, a);
    if s' != s { WalkMoves(s, s', c, p); }
  }

  lemma ExitTouches(s: State, c: nat, p: nat, a: Action)
    requires RunsOn(s, c, p) && s.sw[p] == On && s.st[p] == RUNNING
    ensures Exit(s, c, p, a) == s || Touches(s, Exit(s, c, p, a), p)
  {
  }

  lemma WaitScansMoves(s: State, c: nat, p: nat, a: Action)
    requires RunsOn(s, c, p) && s.sw[p] == On
    ensures WaitScans(s, c, p, a) == s || Moves(s, WaitScans(s, c, p, a), c, p)
  {
    var s' := WaitScans(s, c, p, a);
    if s' != s { WalkMoves(s, s', c, p); }
  }

  // p's thread goes from one place to another and moves at most one lock of each kind.
  lemma WalkMoves(s: State, s': State, c: nat, p: nat)
    requires RunsOn(s, c, p) && Sized(s') && s.sw[p] != Off && s'.sw[p] != Off
    requires s'.mode == s.mode && s'.on == s.on && s'.cproc == s.cproc
    requires s'.pc == s.pc[p := s'.pc[p]] && s'.sw == s.sw[p := s'.sw[p]]
    requires LockMoves(s.lock, s'.lock, Held(p, s.pc[p], s.sw[p]), Held(p, s'.pc[p], s'.sw[p]), c)
    requires WaitMoves(s.wlock, s'.wlock, HoldsWait(s.pc[p], s.sw[p]), HoldsWait(s'.pc[p], s'.sw[p]), c)
    ensures Moves(s, s', c, p)
  {
    hide Held, HoldsWait, LockMoves, WaitMoves;
  }

  lemma WaitScansTouches(s: State, c: nat, p: nat, a: Action)
    requires RunsOn(s, c, p) && s.sw[p] == On && s.st[p] == RUNNING
    ensures WaitScans(s, c, p, a) == s || Touches(s, WaitScans(s, c, p, a), p)
  {
  }

  lemma WaitSleepsMoves(s: State, c: nat, p: nat, a: Action)
    requires RunsOn(s, c, p) && s.sw[p] == On
    ensures WaitSleeps(s, c, p, a) == s || Moves(s, WaitSleeps(s, c, p, a), c, p)
  {
    var s' := WaitSleeps(s, c, p, a);
    if s' != s { WalkMoves(s, s', c, p); }
  }

  lemma WaitSleepsTouches(s: State, c: nat, p: nat, a: Action)
    requires RunsOn(s, c, p) && s.sw[p] == On && s.st[p] == RUNNING
    ensures WaitSleeps(s, c, p, a) == s || Touches(s, WaitSleeps(s, c, p, a), p)
  {
  }

  lemma ForkingMoves(s: State, c: nat, p: nat, a: Action)
    requires RunsOn(s, c, p) && s.sw[p] == On
    requires Child(s.pc[p]) != NONE ==> Child(s.pc[p]) < NPROC && s.st[Child(s.pc[p])] == USED
    requires s.pc[p].Fork2? && s.pc[p].np < NPROC && s.st[s.pc[p].np] == UNUSED ==> s.sw[s.pc[p].np] == Off
    ensures Forking(s, c, p, a) == s || Moves(s, Forking(s, c, p, a), c, p)
  {
    var s' := Forking(s, c, p, a);
    if s' != s && !a.ForkTake? { WalkMoves(s, s', c, p); }
    if a.ForkTake? { ForkTakeMoves(s, c, p); }
  }

  lemma ForkTakeMoves(s: State, c: nat, p: nat)
    requires RunsOn(s, c, p) && s.sw[p] == On
    requires s.pc[p].Fork2? && s.pc[p].np < NPROC && s.st[s.pc[p].np] == UNUSED ==> s.sw[s.pc[p].np] == Off
    ensures Forking(s, c, p, ForkTake) == s || Moves(s, Forking(s, c, p, ForkTake), c, p)
  {
  }

  lemma ForkingTouches(s: State, c: nat, p: nat, a: Action)
    requires RunsOn(s, c, p) && s.sw[p] == On && s.st[p] == RUNNING
    requires Child(s.pc[p]) != NONE ==> Child(s.pc[p]) < NPROC && s.st[Child(s.pc[p])] == USED
    requires s.pc[p].Fork2? && s.pc[p].np < NPROC && s.st[s.pc[p].np] == UNUSED ==> s.sw[s.pc[p].np] == Off
    ensures Forking(s, c, p, a) == s || Touches(s, Forking(s, c, p, a), p)
  {
  }

  // A thread that is not executing holds at most its own lock.
  predicate Parked(pc: Pc) { LockFree(pc) || pc.Waiting? || pc.Slept? || pc.Dead? }

  // Every thread off its CPU is parked, and an exited process is not scheduled again.
  ghost predicate Resting(s: State)
    requires Sized(s)
  {
    forall p :: 0 <= p < NPROC ==>
      (s.sw[p] != On ==> Parked(s.pc[p]))
      && (s.pc[p].Dead? ==> s.st[p] in {ZOMBIE, UNUSED})
  }

  lemma SwitchingMoves(s: State, c: nat, p: nat, a: Action)
    requires RunsOn(s, c, p) && s.sw[p] != Off && !a.SwitchOut? && (s.sw[p] != On ==> Parked(s.pc[p]))
    ensures Switching(s, c, p, a) == s || Moves(s, Switching(s, c, p, a), c, p)
  {
    var s' := Switching(s, c, p, a);
    if s' != s { WalkMoves(s, s', c, p); }
  }

  lemma SwitchingTouches(s: State, c: nat, p: nat, a: Action)
    requires RunsOn(s, c, p) && s.sw[p] != Off && !a.SwitchOut? && (s.st[p] == RUNNING <==> s.sw[p] != Leave)
    ensures Switching(s, c, p, a) == s || Touches(s, Switching(s, c, p, a), p)
  {
  }

  lemma SwitchOutPlaced(s: State, c: nat, p: nat)
    requires RunsOn(s, c, p) && Placed(s)
    ensures Placed(Switching(s, c, p, SwitchOut))
  {
  }

  lemma SwitchOutLocked(s: State, c: nat, p: nat)
    requires RunsOn(s, c, p) && Placed(s) && Locked(s)
    ensures Locked(Switching(s, c, p, SwitchOut))
  {
    hide HoldsWait;
    var s' := Switching(s, c, p, SwitchOut);
    if s.sw[p] == Leave {
      NotHeld(s.pc[p]);
      forall d | 0 <= d < |s.mode| ensures CpuHolds(s', d) == CpuHolds(s, d) { assert d != c ==> s.mode[d] != Runs(p); }
      if s.wlock != NONE { assert WaitHolder(s', s.mode[s.wlock].p); }
    }
  }

  lemma NotHeld(pc: Pc)
    ensures !HoldsWait(pc, Leave) && !HoldsWait(pc, Off) && !HoldsWait(pc, Arrive)
  {
  }

  lemma LeaveHolds(s: State, p: nat)
    requires Sized(s) && Placed(s) && Locked(s) && p < NPROC && s.sw[p] == Leave
    ensures s.lock[p] == s.on[p] && s.mode[s.on[p]] == Runs(p)
  {
    assert CpuHolds(s, s.on[p]) == p;
  }

  // The process that the scheduler looks at is on no CPU.
  lemma HoldingIsOff(s: State, c: nat)
    requires Sized(s) && Placed(s) && Locked(s) && c < |s.mode| && s.mode[c].Holding?
    ensures var p := s.mode[c].p; s.lock[p] == c && (s.st[p] == RUNNABLE ==> s.sw[p] == Off)
    ensures forall d: nat :: d < |s.mode| ==> s.mode[d] != Back(s.mode[c].p)
  {
    hide Locked, Held;
    var p := s.mode[c].p;
    HeldIsLocked(s, c);
    if s.sw[p] == Leave { LeaveHolds(s, p); }
    forall d: nat | d < |s.mode| ensures s.mode[d] != Back(p) {
      if s.mode[d] == Back(p) { HeldIsLocked(s, d); }
    }
  }

  lemma HeldIsLocked(s: State, c: nat)
    requires Sized(s) && Locked(s) && c < |s.mode|
    ensures CpuHolds(s, c) != NONE ==> 0 <= CpuHolds(s, c) < NPROC && s.lock[CpuHolds(s, c)] == c
  {
  }

  lemma SchedulerPlaced(s: State, c: nat, a: Action)
    requires Sized(s) && Placed(s) && Locked(s) && c < |s.mode|
    ensures Placed(Scheduler(s, c, a))
  {
    hide Locked, Held;
    if s.mode[c].Holding? { HoldingIsOff(s, c); }
  }

  lemma SchedulerLocked(s: State, c: nat, a: Action)
    requires Sized(s) && Placed(s) && Locked(s) && c < |s.mode|
    ensures Locked(Scheduler(s, c, a))
  {
    hide HoldsWait;
    var s' := Scheduler(s, c, a);
    if s' != s {
      var p := if a.Pick? then a.p else s.mode[c].p;
      if a.Check? { HoldingIsOff(s, c); }
      NotHeld(s.pc[p]);
      OthersHold(s, s', c, p);
      LocksMoved(s, s', c);
      if s.wlock != NONE { assert s.wlock != c && WaitHolder(s', s.mode[s.wlock].p); }
    }
  }

  // A scheduler step on p changes what no other CPU holds.
  lemma OthersHold(s: State, s': State, c: nat, p: nat)
    requires Sized(s) && Sized(s') && Placed(s) && c < |s.mode| == |s'.mode| && p < NPROC && s'.pc == s.pc
    requires forall d :: 0 <= d < |s.mode| && d != c ==> s'.mode[d] == s.mode[d]
    requires s'.sw == s.sw || (s.sw[p] == Off && s'.sw == s.sw[p := Arrive])
    ensures forall d :: 0 <= d < |s.mode| && d != c ==> CpuHolds(s', d) == CpuHolds(s, d)
  {
    hide Held;
  }

  predicate Alive(l: Life) { l in {SLEEPING, RUNNABLE, RUNNING} }

  /** Every parent pointer names a process that is there and has not exited. */
  ghost predicate Parents(s: State)
    requires Sized(s)
  {
    && (forall x :: 0 <= x < NPROC && s.parent[x] != NONE ==> 0 <= s.parent[x] < NPROC && Alive(s.st[s.parent[x]]))
    && (forall x :: 0 <= x < NPROC && s.st[x] == UNUSED ==> s.parent[x] == NONE)
    && Alive(s.st[INIT])
  }

  // How many processes exit has checked for being its children, ...
  function ExitDone(pc: Pc): nat {
    match pc
    case Reparent(k) => k
    case ReparentWake(k, _) => k + 1
    case ReparentWake2(k, _) => k + 1
    case ExitWake(_) => NPROC
    case ExitWake2(_) => NPROC
    case ExitLast => NPROC
    case ExitSet => NPROC
    case _ => 0
  }

  // ... has tried to wake for being its parent, ...
  function WakeDone(pc: Pc): nat {
    match pc
    case ExitWake(j) => j
    case ExitWake2(j) => j
    case ExitLast => NPROC
    case ExitSet => NPROC
    case _ => 0
  }

  // ... and how many wait has found not to have exited.
  function ScanDone(pc: Pc): nat {
    match pc
    case WaitScan(k, _) => k
    case WaitScan2(k, _) => k
    case WaitKilled => NPROC
    case WaitKilledOwn => NPROC
    case WaitSleep => NPROC
    case WaitDrop => NPROC
    case _ => 0
  }

  // exit has given init a child and not yet come to init in its wakeup.
  predicate Adopting(pc: Pc) { (pc.ReparentWake? || pc.ReparentWake2?) && pc.j <= INIT }

  // About to sleep, or asleep, in wait.
  predicate Drowsy(s: State, y: nat)
    requires Sized(s) && y < NPROC
  {
    s.pc[y] == WaitDoze || (s.st[y] == SLEEPING && s.chan[y] == Of(y))
  }

  ghost predicate Exits(s: State)
    requires Sized(s)
  {
    && (forall p :: 0 <= p < NPROC && Exiting(s.pc[p]) ==> p != INIT)
    && (forall p, x :: 0 <= p < NPROC && 0 <= x < NPROC && x < ExitDone(s.pc[p]) ==> s.parent[x] != p)
  }

  ghost predicate Scans(s: State)
    requires Sized(s)
  {
    forall p, x :: 0 <= p < NPROC && 0 <= x < NPROC && x < ScanDone(s.pc[p]) && s.parent[x] == p ==> s.st[x] != ZOMBIE
  }

  ghost predicate Wakes(s: State)
    requires Sized(s)
  {
    forall p :: 0 <= p < NPROC && 0 <= s.parent[p] < NPROC && s.parent[p] < WakeDone(s.pc[p]) ==>
      !Drowsy(s, s.parent[p])
  }

  ghost predicate NoLost(s: State)
    requires Sized(s)
  {
    forall y, x :: 0 <= y < NPROC && 0 <= x < NPROC && Drowsy(s, y) && s.parent[x] == y && s.st[x] == ZOMBIE ==>
      y == INIT && exists q :: 0 <= q < NPROC && Adopting(s.pc[q])
  }

  ghost predicate Family(s: State)
    requires Sized(s)
  {
    Parents(s) && Exits(s) && Scans(s) && Wakes(s) && NoLost(s)
  }

  // A step without wait_lock: no one gets a parent, exits or dozes off.
  ghost predicate Calm(s: State, s': State)
    requires Sized(s) && Sized(s')
  {
    && (forall x :: 0 <= x < NPROC ==> s'.parent[x] == s.parent[x] && (s'.st[x] == ZOMBIE ==> s.st[x] == ZOMBIE))
    && (forall x :: 0 <= x < NPROC ==> (Alive(s.st[x]) ==> Alive(s'.st[x])) && (Drowsy(s', x) ==> Drowsy(s, x)))
    && (forall x :: 0 <= x < NPROC && s'.st[x] == UNUSED ==> s.st[x] == UNUSED || s.parent[x] == NONE)
    && (forall q :: 0 <= q < NPROC && s'.pc[q] != s.pc[q] ==> Fresh(s'.pc[q], q) && !Adopting(s.pc[q]))
  }

  predicate Fresh(pc: Pc, q: int) {
    ExitDone(pc) == 0 && WakeDone(pc) == 0 && ScanDone(pc) == 0 && (Exiting(pc) ==> q != INIT)
  }

  lemma CalmKeeps(s: State, s': State)
    requires Sized(s) && Sized(s') && Family(s) && Calm(s, s')
    ensures Family(s')
  {
    hide Drowsy, ExitDone, WakeDone, ScanDone, Adopting, Exiting;
  }

  lemma SchedulerCalm(s: State, c: nat, a: Action)
    requires Sized(s) && c < |s.mode|
    ensures Calm(s, Scheduler(s, c, a))
  {
  }

  // p goes on to another place; nothing of anyone's life changes.
  lemma WalkIsCalm(s: State, s': State, p: nat, k: Pc)
    requires Sized(s) && Sized(s') && p < NPROC && s'.pc == s.pc[p := k]
    requires s'.st == s.st && s'.chan == s.chan && s'.parent == s.parent && Fresh(k, p) && k != WaitDoze
      && !Adopting(s.pc[p])
    ensures Calm(s, s')
  {
    hide ExitDone, WakeDone, ScanDone, Adopting, Exiting;
  }

  // x's life changes, to one that is neither new, over nor asleep in wait; p may go on.
  lemma LifeIsCalm(s: State, s': State, p: nat, k: Pc, x: nat, l: Life)
    requires Sized(s) && Sized(s') && p < NPROC && x < NPROC && s'.pc == s.pc[p := k] && s'.st == s.st[x := l]
    requires s'.parent == s.parent && (k == s.pc[p] || (Fresh(k, p) && k != WaitDoze && !Adopting(s.pc[p])))
    requires Alive(l) && s'.chan == s.chan[x := s'.chan[x]] && (l == SLEEPING ==> s'.chan[x] != Of(x) || Drowsy(s, x))
    ensures Calm(s, s')
  {
    hide ExitDone, WakeDone, ScanDone, Adopting, Exiting;
  }

  lemma SwitchingCalm(s: State, c: nat, p: nat, a: Action)
    requires RunsOn(s, c, p) && s.sw[p] != Off && (s.st[p] == RUNNING <==> s.sw[p] != Leave)
    ensures Calm(s, Switching(s, c, p, a))
  {
    var s' := Switching(s, c, p, a);
    if s' != s {
      assert s'.pc == s.pc[p := s'.pc[p]] && s'.st == s.st[p := s'.st[p]] && s'.chan == s.chan[p := s'.chan[p]];
      if a.Arrived? || a.YieldSet? { LifeIsCalm(s, s', p, s'.pc[p], p, s'.st[p]); }
    }
  }

  lemma SignalsCalm(s: State, c: nat, p: nat, a: Action)
    requires RunsOn(s, c, p) && s.st[p] == RUNNING
    ensures Calm(s, Signals(s, c, p, a))
  {
    var s' := Signals(s, c, p, a);
    if s' != s {
      if a.KillLock? || a.WakeLock? || a.SleepLock? {
        WalkIsCalm(s, s', p, s'.pc[p]);
      } else {
        var x := if a.SleepDo? then p else s.pc[p].q;
        assert s'.st == s.st[x := s'.st[x]] && s'.chan == s.chan[x := s'.chan[x]];
        if s'.st == s.st { WalkIsCalm(s, s', p, s'.pc[p]); } else { LifeIsCalm(s, s', p, s'.pc[p], x, s'.st[x]); }
      }
    }
  }

  lemma StartsCalm(s: State, c: nat, p: nat)
    requires RunsOn(s, c, p)
    ensures Calm(s, Reparents(s, c, p, ExitStart)) && Calm(s, WaitScans(s, c, p, WaitStart))
  {
    if Reparents(s, c, p, ExitStart) != s { WalkIsCalm(s, Reparents(s, c, p, ExitStart), p, Reparent(0)); }
    if WaitScans(s, c, p, WaitStart) != s { WalkIsCalm(s, WaitScans(s, c, p, WaitStart), p, WaitScan(0, false)); }
  }

  lemma WaitSetCalm(s: State, c: nat, p: nat)
    requires RunsOn(s, c, p)
    ensures Calm(s, WaitSleeps(s, c, p, WaitSet))
  {
    if WaitSleeps(s, c, p, WaitSet) != s { LifeIsCalm(s, WaitSleeps(s, c, p, WaitSet), p, Waiting, p, SLEEPING); }
  }

  // What the forking process knows of its child.
  ghost predicate ForkKnows(s: State, p: nat)
    requires Sized(s) && p < NPROC
  {
    && (Child(s.pc[p]) != NONE ==> 0 <= Child(s.pc[p]) < NPROC && s.st[Child(s.pc[p])] == USED)
    && (s.pc[p].ForkBuild2? && s.pc[p].np < NPROC ==> s.parent[s.pc[p].np] == NONE)
    && (s.pc[p].Fork2? && s.pc[p].np < NPROC && s.st[s.pc[p].np] == UNUSED ==>
         s.sw[s.pc[p].np] == Off && Parked(s.pc[s.pc[p].np]))
  }

  lemma ForkingCalm(s: State, c: nat, p: nat, a: Action)
    requires RunsOn(s, c, p) && s.st[p] == RUNNING && !a.ForkParent? && ForkKnows(s, p)
    ensures Calm(s, Forking(s, c, p, a))
  {
    var s' := Forking(s, c, p, a);
    if s' != s {
      if a.ForkLook? || a.ForkUnlock? || a.ForkWait? || a.ForkLock? {
        WalkIsCalm(s, s', p, s'.pc[p]);
      } else if a.ForkRun? {
        LifeIsCalm(s, s', p, Run, s.pc[p].np, RUNNABLE);
      } else {
        BirthIsCalm(s, s', p, s.pc[p].np, s'.pc[p]);
      }
    }
  }

  // A slot of the process table is taken or given back.
  lemma BirthIsCalm(s: State, s': State, p: nat, np: nat, k: Pc)
    requires Sized(s) && Sized(s') && p < NPROC && np < NPROC && Fresh(k, p) && k != WaitDoze && !Adopting(s.pc[p])
    requires s'.pc == s.pc[p := k] || (p != np && s'.pc == s.pc[np := Run][p := k] && !Adopting(s.pc[np]))
    requires s'.st == s.st || (s.st[np] in {UNUSED, USED} && s'.st == s.st[np := USED])
      || (s.st[np] in {UNUSED, USED} && s'.st == s.st[np := UNUSED] && s.parent[np] == NONE)
    requires s'.parent == s.parent || (s.parent[np] == NONE && s'.parent == s.parent[np := NONE])
    requires s'.chan == s.chan || (s'.chan == s.chan[np := NoChan])
    ensures Calm(s, s')
  {
    assert Fresh(Run, np);
    hide ExitDone, WakeDone, ScanDone, Adopting, Exiting;
    assert s'.parent == s.parent;
  }

  // Only p is anywhere that needs wait_lock.
  ghost predicate Sole(s: State, p: nat)
    requires Sized(s)
  {
    forall q :: 0 <= q < NPROC && q != p ==> Idler(s.pc[q])
  }

  predicate Idler(pc: Pc) {
    ExitDone(pc) == 0 && WakeDone(pc) == 0 && ScanDone(pc) == 0 && !Exiting(pc) && !Adopting(pc)
  }

  lemma HolderIsSole(s: State, c: nat, p: nat)
    requires RunsOn(s, c, p) && Placed(s) && Locked(s) && Resting(s) && HoldsWait(s.pc[p], s.sw[p])
    ensures Sole(s, p)
  {
    forall q | 0 <= q < NPROC && q != p ensures !HoldsWait(s.pc[q], s.sw[q]) && (s.sw[q] == On || Parked(s.pc[q])) {
      assert s.sw[q] != Off ==> s.on[q] != c;
    }
    hide Placed, Locked, Resting;
  }

  // Family, when only p's place matters.
  ghost predicate FamilyOf(s: State, p: nat)
    requires Sized(s) && p < NPROC
  {
    && Parents(s) && (Exiting(s.pc[p]) ==> p != INIT)
    && (forall x :: 0 <= x < NPROC && x < ExitDone(s.pc[p]) ==> s.parent[x] != p)
    && (forall x :: 0 <= x < NPROC && x < ScanDone(s.pc[p]) && s.parent[x] == p ==> s.st[x] != ZOMBIE)
    && (0 <= s.parent[p] < NPROC && s.parent[p] < WakeDone(s.pc[p]) ==> !Drowsy(s, s.parent[p]))
    && NoneLost(s, Adopting(s.pc[p]))
  }

  ghost predicate NoneLost(s: State, excused: bool)
    requires Sized(s)
  {
    forall y, x :: 0 <= y < NPROC && 0 <= x < NPROC && Drowsy(s, y) && s.parent[x] == y && s.st[x] == ZOMBIE ==>
      y == INIT && excused
  }

  lemma FamilyFocus(s: State, p: nat)
    requires Sized(s) && p < NPROC && Sole(s, p)
    ensures Family(s) <==> FamilyOf(s, p)
  {
    hide ExitDone, WakeDone, ScanDone, Adopting, Exiting, Drowsy, Parents;
  }

  lemma SoleStays(s: State, s': State, p: nat)
    requires Sized(s) && Sized(s') && p < NPROC && Sole(s, p) && s'.pc == s.pc[p := s'.pc[p]]
    ensures Sole(s', p)
  {
    hide Idler;
  }

  // p goes on; nothing of anyone's life changes.
  lemma WalkOn(s: State, s': State, p: nat)
    requires Sized(s) && Sized(s') && p < NPROC && FamilyOf(s, p) && s'.pc == s.pc[p := s'.pc[p]]
      && s'.pc[p] != WaitDoze
    requires s'.st == s.st && s'.chan == s.chan && s'.parent == s.parent && (Exiting(s'.pc[p]) ==> p != INIT)
    requires forall x :: 0 <= x < NPROC && ExitDone(s.pc[p]) <= x < ExitDone(s'.pc[p]) ==> s.parent[x] != p
    requires forall x :: 0 <= x < NPROC && ScanDone(s.pc[p]) <= x < ScanDone(s'.pc[p]) && s.parent[x] == p ==>
      s.st[x] != ZOMBIE
    requires WakeDone(s.pc[p]) <= s.parent[p] < WakeDone(s'.pc[p]) && 0 <= s.parent[p] < NPROC ==>
      !Drowsy(s', s.parent[p])
    requires Adopting(s.pc[p]) ==> Adopting(s'.pc[p])
    ensures FamilyOf(s', p)
  {
    hide ExitDone, WakeDone, ScanDone, Adopting, Exiting, Drowsy;
    forall y | 0 <= y < NPROC ensures Drowsy(s', y) ==> Drowsy(s, y) { SameDrowse(s, s', p, y); }
  }

  lemma ForkParentFamily(s: State, c: nat, p: nat)
    requires RunsOn(s, c, p) && s.st[p] == RUNNING && FamilyOf(s, p) && s.pc[p].ForkAdopt? && ForkKnows(s, p)
    ensures FamilyOf(Forking(s, c, p, ForkParent), p)
  {
    hide Drowsy;
    var s' := Forking(s, c, p, ForkParent);
    forall y | 0 <= y < NPROC ensures Drowsy(s', y) ==> Drowsy(s, y) { SameDrowse(s, s', p, y); }
  }

  lemma SameDrowse(s: State, s': State, p: nat, y: nat)
    requires Sized(s) && Sized(s') && p < NPROC && y < NPROC && s'.pc == s.pc[p := s'.pc[p]] && s'.pc[p] != WaitDoze
    requires s'.st == s.st && s'.chan == s.chan
    ensures Drowsy(s', y) ==> Drowsy(s, y)
  {
  }

  lemma ReparentStepFamily(s: State, c: nat, p: nat)
    requires RunsOn(s, c, p) && FamilyOf(s, p) && s.pc[p].Reparent?
    ensures FamilyOf(Reparents(s, c, p, ReparentStep), p)
  {
    hide Drowsy;
    var s' := Reparents(s, c, p, ReparentStep);
    forall y | 0 <= y < NPROC ensures Drowsy(s', y) ==> Drowsy(s, y) { SameDrowse(s, s', p, y); }
  }

  lemma ReparentLockFamily(s: State, c: nat, p: nat)
    requires RunsOn(s, c, p) && FamilyOf(s, p) && s.pc[p].ReparentWake?
    ensures FamilyOf(Reparents(s, c, p, ReparentLock), p)
  {
    var s' := Reparents(s, c, p, ReparentLock);
    if s' != s { WalkOn(s, s', p); }
  }

  // q is woken: it is no longer on its way to sleep in wait, for the lock was free.
  lemma Roused(s: State, c: nat, p: nat, q: nat)
    requires RunsOn(s, c, p) && Placed(s) && Locked(s) && Resting(s) && q < NPROC && q != p
      && Held(p, s.pc[p], s.sw[p]) == q
    ensures s.pc[q] != WaitDoze
  {
    assert CpuHolds(s, c) == q && s.lock[q] == c;
    assert s.pc[q] == WaitDoze ==> s.sw[q] == On && CpuHolds(s, s.on[q]) == q;
  }

  // A wakeup of q on its own process channel.
  lemma WokenOn(s: State, s': State, p: nat, q: nat, chan: Chan)
    requires Sized(s) && Sized(s') && p < NPROC && q < NPROC && FamilyOf(s, p) && s.pc[q] != WaitDoze
    requires s'.pc == s.pc[p := s'.pc[p]] && s'.pc[p] != WaitDoze && s'.st == Woken(s, q, chan) && s'.chan == s.chan
      && s'.parent == s.parent
    ensures Parents(s') && forall y :: 0 <= y < NPROC && Drowsy(s', y) ==> Drowsy(s, y) && (y == q ==> chan != Of(q))
    ensures forall x :: 0 <= x < NPROC && s'.st[x] == ZOMBIE ==> s.st[x] == ZOMBIE
  {
  }

  lemma LessDrowsy(s: State, s': State, excused: bool)
    requires Sized(s) && Sized(s') && NoneLost(s, excused) && s'.parent == s.parent
    requires forall x :: 0 <= x < NPROC && s'.st[x] == ZOMBIE ==> s.st[x] == ZOMBIE
    requires forall y :: 0 <= y < NPROC && Drowsy(s', y) ==> Drowsy(s, y)
    ensures NoneLost(s', excused)
  {
    hide Drowsy;
  }

  // Once init has been looked at, no excuse is needed.
  lemma WokenLost(s: State, s': State, p: nat, j: nat)
    requires Sized(s) && Sized(s') && p < NPROC && NoneLost(s, Adopting(s.pc[p])) && s.pc[p].ReparentWake2?
      && s.pc[p].j == j < NPROC
    requires s'.pc[p].ReparentWake? && s'.pc[p].j == j + 1 && s'.parent == s.parent && s'.st == Woken(s, j, Of(INIT))
    requires forall y :: 0 <= y < NPROC && Drowsy(s', y) ==> Drowsy(s, y) && (y == j ==> Of(INIT) != Of(j))
    ensures NoneLost(s', Adopting(s'.pc[p]))
  {
    hide Drowsy;
    LessDrowsy(s, s', Adopting(s.pc[p]));
  }

  lemma ReparentDoFamily(s: State, c: nat, p: nat)
    requires RunsOn(s, c, p) && Placed(s) && Locked(s) && Resting(s) && FamilyOf(s, p) && s.pc[p].ReparentWake2?
      && s.sw[p] == On
    requires s.pc[p].j < NPROC
    ensures FamilyOf(Reparents(s, c, p, ReparentDo), p)
  {
    hide Drowsy, Placed, Locked, Resting, Woken, Parents, NoneLost;
    var s', j := Reparents(s, c, p, ReparentDo), s.pc[p].j;
    if j != p { Roused(s, c, p, j); }
    WokenOn(s, s', p, j, Of(INIT));
    assert NoneLost(s', Adopting(s'.pc[p])) by { WokenLost(s, s', p, j); }
  }

  lemma ExitWakeLockFamily(s: State, c: nat, p: nat)
    requires RunsOn(s, c, p) && FamilyOf(s, p) && s.pc[p].ExitWake? && s.st[p] == RUNNING
    ensures FamilyOf(Exit(s, c, p, ExitWakeLock), p)
  {
    var s' := Exit(s, c, p, ExitWakeLock);
    if s' != s { WalkOn(s, s', p); }
  }

  lemma ExitWakeDoFamily(s: State, c: nat, p: nat)
    requires RunsOn(s, c, p) && Placed(s) && Locked(s) && Resting(s) && FamilyOf(s, p) && s.pc[p].ExitWake2?
      && s.sw[p] == On
    requires s.pc[p].j < NPROC
    ensures FamilyOf(Exit(s, c, p, ExitWakeDo), p)
  {
    hide Drowsy, Placed, Locked, Resting, Woken, Parents, NoneLost;
    var s', j := Exit(s, c, p, ExitWakeDo), s.pc[p].j;
    if j != p { Roused(s, c, p, j); }
    WokenOn(s, s', p, j, Of(s.parent[p]));
    assert NoneLost(s', false) by { LessDrowsy(s, s', false); }
  }

  lemma ExitLockFamily(s: State, c: nat, p: nat)
    requires RunsOn(s, c, p) && FamilyOf(s, p) && s.pc[p] == ExitLast
    ensures FamilyOf(Exit(s, c, p, ExitLock), p)
  {
    var s' := Exit(s, c, p, ExitLock);
    if s' != s { WalkOn(s, s', p); }
  }

  // p's life changes to l and it goes on.
  lemma LifeDrowse(s: State, s': State, p: nat, x: nat, y: nat)
    requires Sized(s) && Sized(s') && p < NPROC && x < NPROC && y < NPROC && s'.pc == s.pc[p := s'.pc[p]]
      && s'.pc[p] != WaitDoze
    requires s'.st == s.st[x := s'.st[x]] && s'.st[x] != SLEEPING
      && (s'.chan == s.chan || s'.chan == s.chan[x := NoChan])
    ensures Drowsy(s', y) ==> Drowsy(s, y)
  {
  }

  lemma ExitDoFamily(s: State, c: nat, p: nat)
    requires RunsOn(s, c, p) && FamilyOf(s, p) && s.pc[p] == ExitSet
    ensures FamilyOf(Exit(s, c, p, ExitDo), p)
  {
    hide Drowsy;
    var s' := Exit(s, c, p, ExitDo);
    forall y | 0 <= y < NPROC ensures Drowsy(s', y) ==> Drowsy(s, y) { LifeDrowse(s, s', p, p, y); }
    assert Parents(s');
    assert NoneLost(s', false);
  }

  lemma WaitLookFamily(s: State, c: nat, p: nat)
    requires RunsOn(s, c, p) && FamilyOf(s, p) && s.pc[p].WaitScan?
    ensures FamilyOf(WaitScans(s, c, p, WaitLook), p)
  {
    var s' := WaitScans(s, c, p, WaitLook);
    if s' != s { WalkOn(s, s', p); }
  }

  lemma WaitDoFamily(s: State, c: nat, p: nat, fail: bool)
    requires RunsOn(s, c, p) && FamilyOf(s, p) && s.pc[p].WaitScan2? && s.pc[p].k < NPROC
    ensures FamilyOf(WaitScans(s, c, p, WaitDo(fail)), p)
  {
    hide Drowsy, Parents, NoneLost, Alive;
    var s', k := WaitScans(s, c, p, WaitDo(fail)), s.pc[p].k;
    if s.st[k] != ZOMBIE || fail { WalkOn(s, s', p); } else { ReapFamily(s, s', p, k); }
  }

  // A child that has exited is freed; it is no one's parent.
  lemma ReapFamily(s: State, s': State, p: nat, k: nat)
    requires Sized(s) && Sized(s') && p < NPROC && k < NPROC && FamilyOf(s, p) && s.st[k] == ZOMBIE
      && !Adopting(s.pc[p])
    requires s'.pc == s.pc[p := Run] && s'.st == s.st[k := UNUSED] && s'.chan == s.chan[k := NoChan]
      && s'.parent == s.parent[k := NONE]
    ensures FamilyOf(s', p)
  {
    assert Idler(Run);
    hide Drowsy, ExitDone, WakeDone, ScanDone, Adopting, Exiting;
    forall y | 0 <= y < NPROC ensures Drowsy(s', y) ==> Drowsy(s, y) { LifeDrowse(s, s', p, k, y); }
    assert Parents(s');
  }

  lemma WaitSleepsFamily(s: State, c: nat, p: nat, a: Action)
    requires RunsOn(s, c, p) && FamilyOf(s, p) && (a.KilledLock? || a.KilledDo? || a.WaitLock?)
    ensures FamilyOf(WaitSleeps(s, c, p, a), p)
  {
    var s' := WaitSleeps(s, c, p, a);
    if s' != s { WalkOn(s, s', p); }
  }

  lemma WaitUnlockFamily(s: State, c: nat, p: nat)
    requires RunsOn(s, c, p) && FamilyOf(s, p) && s.pc[p] == WaitDrop
    ensures FamilyOf(WaitSleeps(s, c, p, WaitUnlock), p)
  {
    hide Drowsy;
    var s' := WaitSleeps(s, c, p, WaitUnlock);
    forall y | 0 <= y < NPROC && y != p ensures Drowsy(s', y) ==> Drowsy(s, y) { OtherDrowse(s, s', p, y); }
    assert NoneLost(s', false);
  }

  lemma OtherDrowse(s: State, s': State, p: nat, y: nat)
    requires Sized(s) && Sized(s') && p < NPROC && y < NPROC && y != p && s'.pc == s.pc[p := s'.pc[p]] && s'.st == s.st
      && s'.chan == s.chan
    ensures Drowsy(s', y) ==> Drowsy(s, y)
  {
  }

  // No thread but p's moves, except that a slot without a thread may get a new one.
  ghost predicate Parks(s: State, s': State, p: nat)
    requires Sized(s) && Sized(s') && p < NPROC
  {
    && (forall q :: 0 <= q < NPROC && q != p ==> s'.sw[q] == s.sw[q] && (s'.pc[q] == Run || s'.pc[q] == s.pc[q]))
    && (forall q :: 0 <= q < NPROC && q != p && s'.pc[q] != Run && s.st[q] in {ZOMBIE, UNUSED} ==>
         s'.st[q] in {ZOMBIE, UNUSED})
    && (s'.sw[p] != On ==> Parked(s'.pc[p])) && (s'.pc[p].Dead? ==> s'.st[p] in {ZOMBIE, UNUSED})
  }

  lemma ParksResting(s: State, s': State, p: nat)
    requires Sized(s) && Sized(s') && p < NPROC && Resting(s) && Parks(s, s', p)
    ensures Resting(s')
  {
  }

  lemma SignalsParks(s: State, c: nat, p: nat, a: Action)
    requires RunsOn(s, c, p) && s.sw[p] == On && s.st[p] == RUNNING
    ensures Signals(s, c, p, a) == s || Parks(s, Signals(s, c, p, a), p)
  {
  }

  lemma ReparentsParks(s: State, c: nat, p: nat, a: Action)
    requires RunsOn(s, c, p) && s.sw[p] == On && s.st[p] == RUNNING
    ensures Reparents(s, c, p, a) == s || Parks(s, Reparents(s, c, p, a), p)
  {
  }

  lemma ExitParks(s: State, c: nat, p: nat, a: Action)
    requires RunsOn(s, c, p) && s.sw[p] == On && s.st[p] == RUNNING
    ensures Exit(s, c, p, a) == s || Parks(s, Exit(s, c, p, a), p)
  {
  }

  lemma WaitScansParks(s: State, c: nat, p: nat, a: Action)
    requires RunsOn(s, c, p) && s.sw[p] == On && s.st[p] == RUNNING
    ensures WaitScans(s, c, p, a) == s || Parks(s, WaitScans(s, c, p, a), p)
  {
  }

  lemma WaitSleepsParks(s: State, c: nat, p: nat, a: Action)
    requires RunsOn(s, c, p) && s.sw[p] == On && s.st[p] == RUNNING
    ensures WaitSleeps(s, c, p, a) == s || Parks(s, WaitSleeps(s, c, p, a), p)
  {
  }

  lemma ForkingParks(s: State, c: nat, p: nat, a: Action)
    requires RunsOn(s, c, p) && s.sw[p] == On && s.st[p] == RUNNING && ForkKnows(s, p)
    ensures Forking(s, c, p, a) == s || Parks(s, Forking(s, c, p, a), p)
  {
  }

  lemma SwitchingParks(s: State, c: nat, p: nat, a: Action)
    requires RunsOn(s, c, p) && s.sw[p] != Off && Resting(s) && (s.st[p] == RUNNING <==> s.sw[p] != Leave)
    ensures Parks(s, Switching(s, c, p, a), p)
  {
  }

  lemma SchedulerResting(s: State, c: nat, a: Action)
    requires Sized(s) && Placed(s) && Locked(s) && c < |s.mode| && Resting(s)
    ensures Resting(Scheduler(s, c, a))
  {
    if s.mode[c].Holding? { HoldingIsOff(s, c); }
    hide Placed, Locked, Parked;
  }

  // Whoever is another's unborn child stays so.
  ghost predicate Nurses(s: State, s': State, p: nat)
    requires Sized(s) && Sized(s') && p < NPROC
  {
    && (forall x :: 0 <= x < NPROC && s.st[x] == USED ==>
         s'.st[x] == USED && (s'.parent[x] == s.parent[x] || s.parent[x] == p))
    && Child(s.pc[p]) == NONE == Child(s'.pc[p]) && s'.pc == s.pc[p := s'.pc[p]]
  }

  lemma NursesForks(s: State, s': State, p: nat)
    requires Sized(s) && Sized(s') && p < NPROC && Forks(s) && Nurses(s, s', p)
    ensures Forks(s')
  {
  }

  lemma SignalsNurses(s: State, c: nat, p: nat, a: Action)
    requires RunsOn(s, c, p) && s.st[p] == RUNNING
    ensures Signals(s, c, p, a) == s || Nurses(s, Signals(s, c, p, a), p)
  {
  }

  lemma ReparentsNurses(s: State, c: nat, p: nat, a: Action)
    requires RunsOn(s, c, p) && s.st[p] == RUNNING
    ensures Reparents(s, c, p, a) == s || Nurses(s, Reparents(s, c, p, a), p)
  {
  }

  lemma ExitNurses(s: State, c: nat, p: nat, a: Action)
    requires RunsOn(s, c, p) && s.st[p] == RUNNING
    ensures Exit(s, c, p, a) == s || Nurses(s, Exit(s, c, p, a), p)
  {
  }

  lemma WaitScansNurses(s: State, c: nat, p: nat, a: Action)
    requires RunsOn(s, c, p) && s.st[p] == RUNNING
    ensures WaitScans(s, c, p, a) == s || Nurses(s, WaitScans(s, c, p, a), p)
  {
  }

  lemma WaitSleepsNurses(s: State, c: nat, p: nat, a: Action)
    requires RunsOn(s, c, p) && s.st[p] == RUNNING
    ensures WaitSleeps(s, c, p, a) == s || Nurses(s, WaitSleeps(s, c, p, a), p)
  {
  }

  lemma SameForks(s: State, s': State)
    requires Sized(s) && Sized(s') && Forks(s) && s'.pc == s.pc && s'.parent == s.parent
    requires forall x :: 0 <= x < NPROC && s.st[x] == USED ==> s'.st[x] == USED
    ensures Forks(s')
  {
    hide Child;
  }

  lemma SwitchingForks(s: State, c: nat, p: nat, a: Action)
    requires RunsOn(s, c, p) && s.st[p] != USED && Forks(s)
    ensures Forks(Switching(s, c, p, a))
  {
    var s' := Switching(s, c, p, a);
    if s.pc[p].Waiting? || s.pc[p].Slept? {
      assert s' == s || Nurses(s, s', p) || s'.pc == s.pc;
      if s'.pc == s.pc { SameForks(s, s'); } else { NursesForks(s, s', p); }
    } else {
      SameForks(s, s');
    }
  }

  lemma ForkingForks(s: State, c: nat, p: nat, a: Action)
    requires RunsOn(s, c, p) && s.st[p] == RUNNING && Forks(s) && forall x :: 0 <= x < NPROC && s.st[x] == UNUSED ==>
      s.parent[x] == NONE
    ensures Forks(Forking(s, c, p, a))
  {
    var s' := Forking(s, c, p, a);
    if a.ForkLook? || a.ForkUnlock? || a.ForkWait? || a.ForkLock? {
      if s' != s { SameChild(s, s', p); }
    }
  }

  // p goes on with the same child, or with none.
  lemma SameChild(s: State, s': State, p: nat)
    requires Sized(s) && Sized(s') && p < NPROC && Forks(s)
    requires s'.st == s.st && s'.parent == s.parent && s'.pc == s.pc[p := s'.pc[p]]
    requires Child(s'.pc[p]) == Child(s.pc[p])
    requires Child(s.pc[p]) != NONE ==>
      (s'.pc[p].ForkReady? || s'.pc[p].ForkGo2? <==> s.pc[p].ForkReady? || s.pc[p].ForkGo2?)
    ensures Forks(s')
  {
    hide Child;
  }

  /** The invariant of every run. */
  ghost predicate Inv(s: State) {
    Sized(s) && Placed(s) && Locked(s) && Resting(s) && Forks(s) && Family(s)
  }

  lemma Knows(s: State, p: nat)
    requires Inv(s) && p < NPROC
    ensures ForkKnows(s, p) && (s.sw[p] != Off ==> (s.st[p] == RUNNING <==> s.sw[p] != Leave))
    ensures (s.sw[p] != On ==> Parked(s.pc[p])) && (s.sw[p] != Off ==> s.st[p] != USED)
  {
    hide Locked, Family, Parked;
  }

  lemma MovedKeeps(s: State, s': State, c: nat, p: nat)
    requires Inv(s) && RunsOn(s, c, p) && Sized(s')
      && (s' == s || (Moves(s, s', c, p) && Touches(s, s', p) && Parks(s, s', p)))
    ensures Placed(s') && Locked(s') && Resting(s')
  {
    if s' != s {
      hide Placed, Locked, Resting, Forks, Family, Moves, Touches, Parks;
      MovesLocked(s, s', c, p);
      TouchesPlaced(s, s', c, p);
      ParksResting(s, s', p);
    }
  }

  lemma SwitchingKeeps(s: State, c: nat, p: nat, a: Action)
    requires Inv(s) && RunsOn(s, c, p) && s.sw[p] != Off
    ensures Inv(Switching(s, c, p, a))
  {
    hide Placed, Locked, Resting, Forks, Family, Moves, Touches, Parks, Switching, ForkKnows;
    Knows(s, p);
    var s' := Switching(s, c, p, a);
    SwitchingCalm(s, c, p, a);
    CalmKeeps(s, s');
    SwitchingForks(s, c, p, a);
    SwitchingParks(s, c, p, a);
    if a.SwitchOut? {
      SwitchOutPlaced(s, c, p);
      SwitchOutLocked(s, c, p);
      ParksResting(s, s', p);
    } else {
      SwitchingMoves(s, c, p, a);
      SwitchingTouches(s, c, p, a);
      MovedKeeps(s, s', c, p);
    }
  }

  lemma SignalsKeeps(s: State, c: nat, p: nat, a: Action)
    requires Inv(s) && RunsOn(s, c, p) && s.sw[p] == On
    ensures Inv(Signals(s, c, p, a))
  {
    hide Placed, Locked, Resting, Forks, Family, Moves, Touches, Parks, Signals, ForkKnows, Nurses;
    Knows(s, p);
    var s' := Signals(s, c, p, a);
    SignalsMoves(s, c, p, a);
    SignalsTouches(s, c, p, a);
    SignalsParks(s, c, p, a);
    MovedKeeps(s, s', c, p);
    SignalsNurses(s, c, p, a);
    if s' != s { NursesForks(s, s', p); }
    SignalsCalm(s, c, p, a);
    CalmKeeps(s, s');
  }

  // The family after a step of the holder of wait_lock.
  lemma HolderKeeps(s: State, s': State, c: nat, p: nat)
    requires Inv(s) && RunsOn(s, c, p) && HoldsWait(s.pc[p], s.sw[p]) && Sized(s') && s'.pc == s.pc[p := s'.pc[p]]
    requires FamilyOf(s, p) ==> FamilyOf(s', p)
    ensures Family(s')
  {
    hide Placed, Locked, Resting, Forks, Family, FamilyOf, Sole, HoldsWait;
    HolderIsSole(s, c, p);
    FamilyFocus(s, p);
    SoleStays(s, s', p);
    FamilyFocus(s', p);
  }

  lemma InRange(s: State, c: nat, p: nat)
    requires Inv(s) && RunsOn(s, c, p)
    ensures Held(p, s.pc[p], s.sw[p]) != NONE ==> 0 <= Held(p, s.pc[p], s.sw[p]) < NPROC
  {
    assert CpuHolds(s, c) == Held(p, s.pc[p], s.sw[p]);
  }

  lemma ForkingKeeps(s: State, c: nat, p: nat, a: Action)
    requires Inv(s) && RunsOn(s, c, p) && s.sw[p] == On
    ensures Inv(Forking(s, c, p, a))
  {
    hide Placed, Locked, Resting, Forks, Moves, Touches, Parks, Forking, Exits, Scans, Wakes, NoLost;
    Knows(s, p);
    var s' := Forking(s, c, p, a);
    ForkingMoves(s, c, p, a);
    ForkingTouches(s, c, p, a);
    ForkingParks(s, c, p, a);
    MovedKeeps(s, s', c, p);
    ForkingForks(s, c, p, a);
    if a.ForkParent? {
      ForkParentKeeps(s, c, p);
    } else {
      ForkingCalm(s, c, p, a);
      CalmKeeps(s, s');
    }
  }

  lemma ForkParentKeeps(s: State, c: nat, p: nat)
    requires Inv(s) && RunsOn(s, c, p) && s.sw[p] == On
    ensures Family(Forking(s, c, p, ForkParent))
  {
    hide Placed, Locked, Resting, Forks, Family, FamilyOf;
    Knows(s, p);
    var s' := Forking(s, c, p, ForkParent);
    if s' != s {
      if FamilyOf(s, p) { ForkParentFamily(s, c, p); }
      HolderKeeps(s, s', c, p);
    }
  }

  lemma ReparentsFamily(s: State, c: nat, p: nat, a: Action)
    requires Inv(s) && RunsOn(s, c, p) && s.sw[p] == On
    ensures Family(Reparents(s, c, p, a))
  {
    hide Placed, Locked, Resting, Forks, Family, FamilyOf;
    Knows(s, p);
    InRange(s, c, p);
    var s' := Reparents(s, c, p, a);
    if s' != s {
      if a.ExitStart? {
        StartsCalm(s, c, p);
        CalmKeeps(s, s');
      } else {
        if FamilyOf(s, p) {
          if a.ReparentStep? { ReparentStepFamily(s, c, p); }
          if a.ReparentLock? { ReparentLockFamily(s, c, p); }
          if a.ReparentDo? { ReparentDoFamily(s, c, p); }
        }
        HolderKeeps(s, s', c, p);
      }
    }
  }

  lemma ExitFamily(s: State, c: nat, p: nat, a: Action)
    requires Inv(s) && RunsOn(s, c, p) && s.sw[p] == On
    ensures Family(Exit(s, c, p, a))
  {
    hide Placed, Locked, Resting, Forks, Family, FamilyOf;
    Knows(s, p);
    InRange(s, c, p);
    var s' := Exit(s, c, p, a);
    if s' != s {
      if FamilyOf(s, p) {
        if a.ExitWakeLock? { ExitWakeLockFamily(s, c, p); }
        if a.ExitWakeDo? { ExitWakeDoFamily(s, c, p); }
        if a.ExitLock? { ExitLockFamily(s, c, p); }
        if a.ExitDo? { ExitDoFamily(s, c, p); }
      }
      HolderKeeps(s, s', c, p);
    }
  }

  lemma WaitScansFamily(s: State, c: nat, p: nat, a: Action)
    requires Inv(s) && RunsOn(s, c, p) && s.sw[p] == On
    ensures Family(WaitScans(s, c, p, a))
  {
    hide Placed, Locked, Resting, Forks, Family, FamilyOf;
    InRange(s, c, p);
    var s' := WaitScans(s, c, p, a);
    if s' != s {
      if a.WaitStart? {
        StartsCalm(s, c, p);
        CalmKeeps(s, s');
      } else {
        if FamilyOf(s, p) {
          if a.WaitLook? { WaitLookFamily(s, c, p); } else { WaitDoFamily(s, c, p, a.fail); }
        }
        HolderKeeps(s, s', c, p);
      }
    }
  }

  lemma WaitSleepsFamilies(s: State, c: nat, p: nat, a: Action)
    requires Inv(s) && RunsOn(s, c, p) && s.sw[p] == On
    ensures Family(WaitSleeps(s, c, p, a))
  {
    hide Placed, Locked, Resting, Forks, Family, FamilyOf;
    var s' := WaitSleeps(s, c, p, a);
    if s' != s {
      if a.WaitSet? {
        WaitSetCalm(s, c, p);
        CalmKeeps(s, s');
      } else {
        if FamilyOf(s, p) {
          if a.WaitUnlock? { WaitUnlockFamily(s, c, p); } else { WaitSleepsFamily(s, c, p, a); }
        }
        HolderKeeps(s, s', c, p);
      }
    }
  }

  lemma ReparentsKeeps(s: State, c: nat, p: nat, a: Action)
    requires Inv(s) && RunsOn(s, c, p) && s.sw[p] == On
    ensures Inv(Reparents(s, c, p, a))
  {
    hide Placed, Locked, Resting, Forks, Family, Moves, Touches, Parks, Reparents, ForkKnows, Nurses;
    Knows(s, p);
    var s' := Reparents(s, c, p, a);
    ReparentsMoves(s, c, p, a);
    ReparentsTouches(s, c, p, a);
    ReparentsParks(s, c, p, a);
    MovedKeeps(s, s', c, p);
    ReparentsNurses(s, c, p, a);
    if s' != s { NursesForks(s, s', p); }
    ReparentsFamily(s, c, p, a);
  }

  lemma ExitKeeps(s: State, c: nat, p: nat, a: Action)
    requires Inv(s) && RunsOn(s, c, p) && s.sw[p] == On
    ensures Inv(Exit(s, c, p, a))
  {
    hide Placed, Locked, Resting, Forks, Family, Moves, Touches, Parks, Exit, ForkKnows, Nurses;
    Knows(s, p);
    var s' := Exit(s, c, p, a);
    ExitMoves(s, c, p, a);
    ExitTouches(s, c, p, a);
    ExitParks(s, c, p, a);
    MovedKeeps(s, s', c, p);
    ExitNurses(s, c, p, a);
    if s' != s { NursesForks(s, s', p); }
    ExitFamily(s, c, p, a);
  }

  lemma WaitScansKeeps(s: State, c: nat, p: nat, a: Action)
    requires Inv(s) && RunsOn(s, c, p) && s.sw[p] == On
    ensures Inv(WaitScans(s, c, p, a))
  {
    hide Placed, Locked, Resting, Forks, Family, Moves, Touches, Parks, WaitScans, ForkKnows, Nurses;
    Knows(s, p);
    var s' := WaitScans(s, c, p, a);
    WaitScansMoves(s, c, p, a);
    WaitScansTouches(s, c, p, a);
    WaitScansParks(s, c, p, a);
    MovedKeeps(s, s', c, p);
    WaitScansNurses(s, c, p, a);
    if s' != s { NursesForks(s, s', p); }
    WaitScansFamily(s, c, p, a);
  }

  lemma WaitSleepsKeeps(s: State, c: nat, p: nat, a: Action)
    requires Inv(s) && RunsOn(s, c, p) && s.sw[p] == On
    ensures Inv(WaitSleeps(s, c, p, a))
  {
    hide Placed, Locked, Resting, Forks, Family, Moves, Touches, Parks, WaitSleeps, ForkKnows, Nurses;
    Knows(s, p);
    var s' := WaitSleeps(s, c, p, a);
    WaitSleepsMoves(s, c, p, a);
    WaitSleepsTouches(s, c, p, a);
    WaitSleepsParks(s, c, p, a);
    MovedKeeps(s, s', c, p);
    WaitSleepsNurses(s, c, p, a);
    if s' != s { NursesForks(s, s', p); }
    WaitSleepsFamilies(s, c, p, a);
  }

  lemma SchedulerSame(s: State, c: nat, a: Action)
    requires Sized(s) && c < |s.mode|
    ensures var s' := Scheduler(s, c, a);
      s'.pc == s.pc && s'.parent == s.parent && forall x :: 0 <= x < NPROC && s.st[x] == USED ==> s'.st[x] == USED
  {
  }

  lemma SchedulerKeeps(s: State, c: nat, a: Action)
    requires Inv(s) && c < |s.mode|
    ensures Inv(Scheduler(s, c, a))
  {
    hide Placed, Locked, Resting, Forks, Family, Scheduler;
    var s' := Scheduler(s, c, a);
    SchedulerSame(s, c, a);
    SchedulerPlaced(s, c, a);
    SchedulerLocked(s, c, a);
    SchedulerResting(s, c, a);
    SchedulerCalm(s, c, a);
    CalmKeeps(s, s');
    SameForks(s, s');
  }

  /** Every step of every CPU keeps the invariant. */
  lemma StepKeeps(s: State, c: nat, a: Action)
    requires Sized(s) && Inv(s)
    ensures Inv(Step(s, c, a))
  {
    hide Inv, Scheduler, Switching, Forking, Signals, Reparents, Exit, WaitScans, WaitSleeps;
    if c < |s.mode| && s.mode[c].Runs? {
      OnCpu(s, c);
      var p := s.mode[c].p;
      SwitchingKeeps(s, c, p, a);
      if s.sw[p] == On {
        ForkingKeeps(s, c, p, a);
        SignalsKeeps(s, c, p, a);
        ReparentsKeeps(s, c, p, a);
        ExitKeeps(s, c, p, a);
        WaitScansKeeps(s, c, p, a);
        WaitSleepsKeeps(s, c, p, a);
      }
    }
    if c < |s.mode| { SchedulerKeeps(s, c, a); }
  }

  lemma OnCpu(s: State, c: nat)
    requires Inv(s) && c < |s.mode| && s.mode[c].Runs?
    ensures s.mode[c].p < NPROC && s.sw[s.mode[c].p] != Off
  {
  }

  // A boot state: init is runnable and every CPU is in its scheduler.
  function Boot(ncpu: nat): State {
    State(seq(NPROC, p => if p == INIT then RUNNABLE else UNUSED), seq(NPROC, _ => NoChan), seq(NPROC, _ => NONE),
          seq(NPROC, _ => false), seq(NPROC, _ => NONE), seq(NPROC, _ => Run), seq(NPROC, _ => Off),
          seq(NPROC, _ => NONE), seq(ncpu, _ => Idle), seq(ncpu, _ => NONE), NONE)
  }

  lemma BootInv(ncpu: nat)
    ensures Inv(Boot(ncpu))
  {
    var s := Boot(ncpu);
    assert forall c :: 0 <= c < |s.mode| ==> s.mode[c] == Idle && CpuHolds(s, c) == NONE;
    assert forall p :: 0 <= p < NPROC ==> s.pc[p] == Run && s.sw[p] == Off;
  }

  datatype Turn = Turn(c: nat, a: Action)

  // Any interleaving of the CPUs' steps.
  function After(ncpu: nat, turns: seq<Turn>): (s: State)
    ensures Sized(s)
  {
    if turns == [] then Boot(ncpu)
    else Step(After(ncpu, turns[..|turns| - 1]), turns[|turns| - 1].c, turns[|turns| - 1].a)
  }

  lemma {:induction false} RunInv(ncpu: nat, turns: seq<Turn>)
    ensures Inv(After(ncpu, turns))
  {
    hide Inv, Step, Boot;
    if turns == [] {
      BootInv(ncpu);
    } else {
      RunInv(ncpu, turns[..|turns| - 1]);
      StepKeeps(After(ncpu, turns[..|turns| - 1]), turns[|turns| - 1].c, turns[|turns| - 1].a);
    }
  }

  /** No child's exit is lost: whenever wait_lock is free, no process is asleep in wait, or about
      to be, while one of its children is a zombie. */
  lemma NoLostExit(ncpu: nat, turns: seq<Turn>, y: nat, x: nat)
    requires y < NPROC && x < NPROC && After(ncpu, turns).wlock == NONE
    ensures var s := After(ncpu, turns); Drowsy(s, y) && s.parent[x] == y ==> s.st[x] != ZOMBIE
  {
    hide After, Placed, Locked, Resting, Forks, Parents, Exits, Scans, Wakes, Adopting, Drowsy;
    var s := After(ncpu, turns);
    RunInv(ncpu, turns);
    forall q | 0 <= q < NPROC ensures !Adopting(s.pc[q]) { NotAdopting(s, q); }
  }

  lemma NotAdopting(s: State, q: nat)
    requires Sized(s) && Placed(s) && Locked(s) && Resting(s) && s.wlock == NONE && q < NPROC
    ensures !Adopting(s.pc[q])
  {
    hide ProcLocks;
    assert s.sw[q] == On || Parked(s.pc[q]);
    assert !HoldsWait(s.pc[q], s.sw[q]);
  }

  /** Every parent pointer names a process that is neither unused nor a zombie. */
  lemma ParentIsAlive(ncpu: nat, turns: seq<Turn>, x: nat)
    requires x < NPROC && After(ncpu, turns).parent[x] != NONE
    ensures var s := After(ncpu, turns); 0 <= s.parent[x] < NPROC && Alive(s.st[s.parent[x]])
  {
    RunInv(ncpu, turns);
    hide After;
  }

  /** No process is the current process of two CPUs. */
  lemma OneCpu(ncpu: nat, turns: seq<Turn>, c: nat, d: nat)
    requires c < d < |After(ncpu, turns).cproc| && After(ncpu, turns).cproc[c] != NONE
    ensures var s := After(ncpu, turns); s.cproc[c] != s.cproc[d]
  {
    var s := After(ncpu, turns);
    RunInv(ncpu, turns);
    hide After;
    assert s.mode[c].Back? && s.mode[d].Back? ==> CpuHolds(s, c) == s.mode[c].p && CpuHolds(s, d) == s.mode[d].p;
  }

  /** A child that wait is about to free has left its CPU: neither in exit nor in swtch. */
  lemma ReapedIsOff(ncpu: nat, turns: seq<Turn>, p: nat, c: nat)
    requires p < NPROC && c < |After(ncpu, turns).cproc|
    requires
      var s := After(ncpu, turns);
      s.sw[p] == On && s.pc[p].WaitScan2? && s.pc[p].k < NPROC
      && s.st[s.pc[p].k] == ZOMBIE
    ensures var s := After(ncpu, turns); s.cproc[c] != s.pc[p].k
  {
    var s := After(ncpu, turns);
    RunInv(ncpu, turns);
    hide After, Forks, Family;
    var k, d := s.pc[p].k, s.on[p];
    assert p != k;
    HeldIsLocked(s, d);
    NotLeaving(s, d, p, k);
    HeldIsLocked(s, c);
  }

  /** What sched checks before it leaves a process always holds: it has its own lock and no
      other, and has changed its state. */
  lemma SchedChecks(ncpu: nat, turns: seq<Turn>, p: nat)
    requires p < NPROC && After(ncpu, turns).sw[p] == Leave
    ensures
      var s := After(ncpu, turns);
      0 <= s.on[p] < |s.mode| && s.lock[p] == s.on[p] && s.wlock != s.on[p]
      && s.st[p] != RUNNING
    ensures var s := After(ncpu, turns); forall x :: 0 <= x < NPROC && s.lock[x] == s.on[p] ==> x == p
  {
    var s := After(ncpu, turns);
    RunInv(ncpu, turns);
    hide After, Forks, Family;
    LeaveHolds(s, p);
  }
}
