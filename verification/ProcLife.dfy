/** What the steps of a run do to the lives of processes: which step starts, wakes, ends or frees
    which process, and the laws that follow for whole runs (kernel/proc.c). */
module ProcLife {
  import opened Proc

  // CPU c runs p's thread, and p is not on its way to or from the scheduler.
  predicate Acts(s: State, c: nat, p: nat)
    requires Sized(s)
  {
    c < |s.mode| && p < NPROC && s.mode[c] == Runs(p) && s.sw[p] == On
  }

  // The process that takes a step of CPU c, or NPROC.
  function Actor(s: State, c: nat): (p: nat)
    requires Sized(s)
    ensures p < NPROC <==> c < |s.mode| && s.mode[c].Runs? && s.mode[c].p < NPROC && s.sw[s.mode[c].p] == On
    ensures p <= NPROC && (p < NPROC ==> Acts(s, c, p))
  {
    if c < |s.mode| && s.mode[c].Runs? && s.mode[c].p < NPROC && s.sw[s.mode[c].p] == On then s.mode[c].p else NPROC
  }

  // Where the process that acts on c is.
  function Place(s: State, c: nat): Pc
    requires Sized(s)
  {
    var p := Actor(s, c);
    if p < NPROC then s.pc[p] else Dead
  }

  // allocproc of a fork takes entry k.
  predicate Takes(s: State, c: nat, a: Action, k: nat)
    requires Sized(s) && k < NPROC
  {
    a == ForkTake && Place(s, c) == Fork2(k) && s.st[k] == UNUSED
  }

  // A fork that cannot copy the memory gives k back.
  predicate GivesUp(s: State, c: nat, a: Action, k: nat)
    requires Sized(s)
  {
    a == ForkFail && Place(s, c) == ForkBuild2(k)
  }

  // A fork makes its child k runnable.
  predicate Starts(s: State, c: nat, a: Action, k: nat)
    requires Sized(s)
  {
    a == ForkRun && Place(s, c) == ForkGo2(k)
  }

  // k itself exits.
  predicate Ends(s: State, c: nat, a: Action, k: nat)
    requires Sized(s)
  {
    a == ExitDo && Actor(s, c) == k && Place(s, c) == ExitSet
  }

  // A wait finds k a zombie, and returns it.
  predicate Reaps(s: State, c: nat, a: Action, k: nat)
    requires Sized(s) && k < NPROC
  {
    a == WaitDo(false) && Place(s, c).WaitScan2? && Place(s, c).k == k && s.st[k] == ZOMBIE
  }

  // k goes to sleep, in sleep or in wait.
  predicate Sleeps(s: State, c: nat, a: Action, k: nat)
    requires Sized(s)
  {
    Actor(s, c) == k && ((a == SleepDo && Place(s, c).SleepOwn?) || (a == WaitSet && Place(s, c) == WaitDoze))
  }

  // k gives its CPU up.
  predicate Yields(s: State, c: nat, a: Action, k: nat)
    requires Sized(s) && k < NPROC
  {
    a == YieldSet && c < |s.mode| && s.mode[c] == Runs(k) && s.sw[k] == Yield
  }

  // The scheduler of CPU c starts to run k.
  predicate Picks(s: State, c: nat, a: Action, k: nat)
    requires Sized(s) && k < NPROC
  {
    a == Check && c < |s.mode| && s.mode[c] == Holding(k) && s.st[k] == RUNNABLE
  }

  // kill looks at k, or a wakeup on the channel that k sleeps on.
  predicate Rouses(s: State, c: nat, a: Action, k: nat)
    requires Sized(s) && k < NPROC
  {
    s.st[k] == SLEEPING && match a
      case KillDo => Place(s, c) == Kill2(k)
      case WakeDo => Place(s, c).Wake2? && Place(s, c).q == k && s.chan[k] == Other(Place(s, c).n)
      case Ring(n) => c < |s.mode| && s.mode[c] == Holding(k) && s.chan[k] == Other(n)
      case ReparentDo => Place(s, c).ReparentWake2? && Place(s, c).j == k && s.chan[k] == Of(INIT)
      case ExitWakeDo => Place(s, c) == ExitWake2(k) && s.chan[k] == Of(s.parent[Actor(s, c)])
      case _ => false
  }

  // The life of k after a step, by what happens to k in it.
  function NextLife(s: State, c: nat, a: Action, k: nat): Life
    requires Sized(s) && k < NPROC
  {
    if Takes(s, c, a, k) then USED
    else if Ends(s, c, a, k) then ZOMBIE
    else if GivesUp(s, c, a, k) || Reaps(s, c, a, k) then UNUSED
    else if Starts(s, c, a, k) || Yields(s, c, a, k) || Rouses(s, c, a, k) then RUNNABLE
    else if Picks(s, c, a, k) then RUNNING
    else if Sleeps(s, c, a, k) then SLEEPING
    else s.st[k]
  }

  // The parent of k after a step.
  function NextParent(s: State, c: nat, a: Action, k: nat): int
    requires Sized(s) && k < NPROC
  {
    if a == ForkParent && Place(s, c) == ForkAdopt(k) then Actor(s, c)
    else if a == ReparentStep && Place(s, c) == Reparent(k) && s.parent[k] == Actor(s, c) then INIT
    else if GivesUp(s, c, a, k) || Reaps(s, c, a, k) then NONE
    else s.parent[k]
  }

  // Whether k has been killed after a step.
  predicate NextKilled(s: State, c: nat, a: Action, k: nat)
    requires Sized(s) && k < NPROC
  {
    if a == KillDo && Place(s, c) == Kill2(k) then true
    else if GivesUp(s, c, a, k) || Reaps(s, c, a, k) then false
    else s.killed[k]
  }

  ghost predicate Fate(s: State, s': State, c: nat, a: Action, k: nat)
    requires Sized(s) && Sized(s') && k < NPROC
  {
    && s'.st[k] == NextLife(s, c, a, k) && s'.parent[k] == NextParent(s, c, a, k)
    && s'.killed[k] == NextKilled(s, c, a, k)
  }

  // Steps that only take or drop locks, or move a thread on.
  predicate Quiet(a: Action) {
    !(a.ForkTake? || a.ForkFail? || a.ForkRun? || a.ForkParent? || a.KillDo? || a.WakeDo? || a.SleepDo? || a.Ring?
      || a.ReparentStep? || a.ReparentDo? || a.ExitWakeDo? || a.ExitDo? || a.WaitDo? || a.WaitSet? || a.YieldSet?
      || a.Check?)
  }

  lemma QuietFate(s: State, s': State, c: nat, a: Action, k: nat)
    requires Sized(s) && Sized(s') && k < NPROC && Quiet(a)
    requires s'.st == s.st && s'.parent == s.parent && s'.killed == s.killed
    ensures Fate(s, s', c, a, k)
  {
    hide Actor, Place;
  }

  lemma PlaceIs(s: State, c: nat, p: nat)
    requires Sized(s) && Acts(s, c, p)
    ensures Actor(s, c) == p && Place(s, c) == s.pc[p]
  {
  }

  lemma NoPlace(s: State, c: nat)
    requires Sized(s) && Actor(s, c) == NPROC
    ensures Place(s, c) == Dead
  {
  }

  lemma SchedulerFate(s: State, c: nat, a: Action, k: nat)
    requires Sized(s) && c < |s.mode| && k < NPROC && (a.Pick? || a.Check? || a.Drop? || a.Ring?)
    ensures Fate(s, Scheduler(s, c, a), c, a, k)
  {
    hide Actor, Place;
  }

  lemma SwitchingFate(s: State, c: nat, p: nat, a: Action, k: nat)
    requires Sized(s) && c < |s.mode| && p < NPROC && k < NPROC && s.mode[c] == Runs(p)
    requires s.sw[p] != On || a.YieldLock?
    requires !(a.Pick? || a.Check? || a.Drop? || a.Ring?)
    ensures Fate(s, Switching(s, c, p, a), c, a, k)
  {
    hide Fate, Actor, Place, Switching;
    if Quiet(a) {
      SwitchingQuiet(s, c, p, a);
      QuietFate(s, Switching(s, c, p, a), c, a, k);
    } else {
      NoPlace(s, c);
      if a == YieldSet { YieldFate(s, c, p, k); } else { StillFate(s, c, p, a, k); }
    }
  }

  lemma SwitchingQuiet(s: State, c: nat, p: nat, a: Action)
    requires Sized(s) && c < |s.mode| && p < NPROC && Quiet(a)
    ensures var s' := Switching(s, c, p, a); s'.st == s.st && s'.parent == s.parent && s'.killed == s.killed
  {
  }

  lemma YieldFate(s: State, c: nat, p: nat, k: nat)
    requires Sized(s) && c < |s.mode| && p < NPROC && k < NPROC && s.mode[c] == Runs(p)
    ensures Fate(s, Switching(s, c, p, YieldSet), c, YieldSet, k)
  {
    hide Actor, Place;
  }

  // A thread between its CPU and the scheduler cannot take a step of its own.
  lemma StillFate(s: State, c: nat, p: nat, a: Action, k: nat)
    requires Sized(s) && c < |s.mode| && p < NPROC && k < NPROC && Actor(s, c) == NPROC && Place(s, c) == Dead
    requires !Quiet(a) && a != YieldSet && !a.Check? && !a.Ring?
    ensures Fate(s, Switching(s, c, p, a), c, a, k)
  {
    hide Actor, Place;
  }

  lemma ForkingFate(s: State, c: nat, p: nat, a: Action, k: nat)
    requires Sized(s) && Acts(s, c, p) && k < NPROC
    requires a.ForkLook? || a.ForkTake? || a.ForkFail? || a.ForkUnlock? || a.ForkWait? || a.ForkParent? || a.ForkLock?
      || a.ForkRun?
    ensures Fate(s, Forking(s, c, p, a), c, a, k)
  {
    hide Fate, Actor, Place, Forking;
    if Quiet(a) {
      ForkingQuiet(s, c, p, a);
      QuietFate(s, Forking(s, c, p, a), c, a, k);
    } else {
      PlaceIs(s, c, p);
      if a.ForkTake? || a.ForkRun? { ForkingLoud(s, c, p, a, k); } else { ForkFailFate(s, c, p, a, k); }
    }
  }

  lemma ForkingQuiet(s: State, c: nat, p: nat, a: Action)
    requires Sized(s) && c < |s.mode| && p < NPROC && Quiet(a)
    ensures var s' := Forking(s, c, p, a); s'.st == s.st && s'.parent == s.parent && s'.killed == s.killed
  {
  }

  lemma ForkingLoud(s: State, c: nat, p: nat, a: Action, k: nat)
    requires Sized(s) && c < |s.mode| && p < NPROC && k < NPROC && Actor(s, c) == p && Place(s, c) == s.pc[p]
    requires a.ForkTake? || a.ForkRun?
    ensures Fate(s, Forking(s, c, p, a), c, a, k)
  {
    hide Actor, Place;
  }

  lemma ForkFailFate(s: State, c: nat, p: nat, a: Action, k: nat)
    requires Sized(s) && c < |s.mode| && p < NPROC && k < NPROC && Actor(s, c) == p && Place(s, c) == s.pc[p]
    requires a.ForkFail? || a.ForkParent?
    ensures Fate(s, Forking(s, c, p, a), c, a, k)
  {
    hide Actor, Place;
  }

  lemma SignalsFate(s: State, c: nat, p: nat, a: Action, k: nat)
    requires Sized(s) && Acts(s, c, p) && k < NPROC
    requires a.KillLock? || a.KillDo? || a.WakeLock? || a.WakeDo? || a.SleepLock? || a.SleepDo?
    ensures Fate(s, Signals(s, c, p, a), c, a, k)
  {
    hide Fate, Actor, Place, Signals;
    if Quiet(a) {
      SignalsQuiet(s, c, p, a);
      QuietFate(s, Signals(s, c, p, a), c, a, k);
    } else {
      PlaceIs(s, c, p);
      SignalsLoud(s, c, p, a, k);
    }
  }

  lemma SignalsQuiet(s: State, c: nat, p: nat, a: Action)
    requires Sized(s) && c < |s.mode| && p < NPROC && Quiet(a)
    ensures var s' := Signals(s, c, p, a); s'.st == s.st && s'.parent == s.parent && s'.killed == s.killed
  {
  }

  lemma SignalsLoud(s: State, c: nat, p: nat, a: Action, k: nat)
    requires Sized(s) && c < |s.mode| && p < NPROC && k < NPROC && Actor(s, c) == p && Place(s, c) == s.pc[p]
    requires a.KillDo? || a.WakeDo? || a.SleepDo?
    ensures Fate(s, Signals(s, c, p, a), c, a, k)
  {
    hide Actor, Place;
  }

  lemma ReparentsFate(s: State, c: nat, p: nat, a: Action, k: nat)
    requires Sized(s) && Acts(s, c, p) && k < NPROC
    requires a.ExitStart? || a.ReparentStep? || a.ReparentLock? || a.ReparentDo?
    ensures Fate(s, Reparents(s, c, p, a), c, a, k)
  {
    hide Fate, Actor, Place, Reparents;
    if Quiet(a) {
      ReparentsQuiet(s, c, p, a);
      QuietFate(s, Reparents(s, c, p, a), c, a, k);
    } else {
      PlaceIs(s, c, p);
      ReparentsLoud(s, c, p, a, k);
    }
  }

  lemma ReparentsQuiet(s: State, c: nat, p: nat, a: Action)
    requires Sized(s) && c < |s.mode| && p < NPROC && Quiet(a)
    ensures var s' := Reparents(s, c, p, a); s'.st == s.st && s'.parent == s.parent && s'.killed == s.killed
  {
  }

  lemma ReparentsLoud(s: State, c: nat, p: nat, a: Action, k: nat)
    requires Sized(s) && c < |s.mode| && p < NPROC && k < NPROC && Actor(s, c) == p && Place(s, c) == s.pc[p]
    requires a.ReparentStep? || a.ReparentDo?
    ensures Fate(s, Reparents(s, c, p, a), c, a, k)
  {
    hide Actor, Place;
  }

  lemma ExitFate(s: State, c: nat, p: nat, a: Action, k: nat)
    requires Sized(s) && Acts(s, c, p) && k < NPROC
    requires a.ExitWakeLock? || a.ExitWakeDo? || a.ExitLock? || a.ExitDo?
    ensures Fate(s, Exit(s, c, p, a), c, a, k)
  {
    hide Fate, Actor, Place, Exit;
    if Quiet(a) {
      ExitQuiet(s, c, p, a);
      QuietFate(s, Exit(s, c, p, a), c, a, k);
    } else {
      PlaceIs(s, c, p);
      ExitLoud(s, c, p, a, k);
    }
  }

  lemma ExitQuiet(s: State, c: nat, p: nat, a: Action)
    requires Sized(s) && c < |s.mode| && p < NPROC && Quiet(a)
    ensures var s' := Exit(s, c, p, a); s'.st == s.st && s'.parent == s.parent && s'.killed == s.killed
  {
  }

  lemma ExitLoud(s: State, c: nat, p: nat, a: Action, k: nat)
    requires Sized(s) && c < |s.mode| && p < NPROC && k < NPROC && Actor(s, c) == p && Place(s, c) == s.pc[p]
    requires a.ExitWakeDo? || a.ExitDo?
    ensures Fate(s, Exit(s, c, p, a), c, a, k)
  {
    hide Actor, Place;
  }

  lemma WaitScansFate(s: State, c: nat, p: nat, a: Action, k: nat)
    requires Sized(s) && Acts(s, c, p) && k < NPROC && (a.WaitStart? || a.WaitLook? || a.WaitDo?)
    ensures Fate(s, WaitScans(s, c, p, a), c, a, k)
  {
    hide Fate, Actor, Place, WaitScans;
    if Quiet(a) {
      WaitScansQuiet(s, c, p, a);
      QuietFate(s, WaitScans(s, c, p, a), c, a, k);
    } else {
      PlaceIs(s, c, p);
      WaitScansLoud(s, c, p, a, k);
    }
  }

  lemma WaitScansQuiet(s: State, c: nat, p: nat, a: Action)
    requires Sized(s) && c < |s.mode| && p < NPROC && Quiet(a)
    ensures var s' := WaitScans(s, c, p, a); s'.st == s.st && s'.parent == s.parent && s'.killed == s.killed
  {
  }

  lemma WaitScansLoud(s: State, c: nat, p: nat, a: Action, k: nat)
    requires Sized(s) && c < |s.mode| && p < NPROC && k < NPROC && Actor(s, c) == p && Place(s, c) == s.pc[p]
    requires a.WaitDo?
    ensures Fate(s, WaitScans(s, c, p, a), c, a, k)
  {
    hide Actor, Place;
  }

  lemma WaitSleepsFate(s: State, c: nat, p: nat, a: Action, k: nat)
    requires Sized(s) && Acts(s, c, p) && k < NPROC
    requires a.KilledLock? || a.KilledDo? || a.WaitLock? || a.WaitUnlock? || a.WaitSet? || a.YieldSet? || a.SwitchOut?
      || a.Arrived?
    ensures Fate(s, WaitSleeps(s, c, p, a), c, a, k)
  {
    hide Fate, Actor, Place, WaitSleeps;
    if Quiet(a) {
      WaitSleepsQuiet(s, c, p, a);
      QuietFate(s, WaitSleeps(s, c, p, a), c, a, k);
    } else {
      PlaceIs(s, c, p);
      if a == WaitSet { WaitSetFate(s, c, p, k); } else { YieldSetFate(s, c, p, k); }
    }
  }

  lemma WaitSleepsQuiet(s: State, c: nat, p: nat, a: Action)
    requires Sized(s) && c < |s.mode| && p < NPROC && Quiet(a)
    ensures var s' := WaitSleeps(s, c, p, a); s'.st == s.st && s'.parent == s.parent && s'.killed == s.killed
  {
  }

  lemma WaitSetFate(s: State, c: nat, p: nat, k: nat)
    requires Sized(s) && c < |s.mode| && p < NPROC && k < NPROC && Actor(s, c) == p && Place(s, c) == s.pc[p]
    ensures Fate(s, WaitSleeps(s, c, p, WaitSet), c, WaitSet, k)
  {
    hide Actor, Place;
  }

  lemma YieldSetFate(s: State, c: nat, p: nat, k: nat)
    requires Sized(s) && Acts(s, c, p) && k < NPROC
    ensures Fate(s, WaitSleeps(s, c, p, YieldSet), c, YieldSet, k)
  {
    hide Actor, Place;
  }

  // A CPU that does not exist, or cannot take the step, does nothing.
  lemma IdleFate(s: State, c: nat, a: Action, k: nat)
    requires Sized(s) && k < NPROC && !(a.Pick? || a.Check? || a.Drop? || a.Ring?)
    requires c >= |s.mode| || !s.mode[c].Runs? || s.mode[c].p >= NPROC
    ensures Fate(s, s, c, a, k)
  {
    NoPlace(s, c);
    hide Actor, Place;
  }

  /** What any step does to the life, the parent and the killed flag of any process. */
  lemma StepFate(s: State, c: nat, a: Action, k: nat)
    requires Sized(s) && k < NPROC
    ensures Fate(s, Step(s, c, a), c, a, k)
  {
    hide Fate, Scheduler, Switching, Forking, Signals, Reparents, Exit, WaitScans, WaitSleeps, Actor;
    if a.Pick? || a.Check? || a.Drop? || a.Ring? {
      if c < |s.mode| { SchedulerFate(s, c, a, k); } else { NoCpu(s, c, a, k); }
    } else if c >= |s.mode| || !s.mode[c].Runs? || s.mode[c].p >= NPROC {
      IdleFate(s, c, a, k);
    } else {
      var p := s.mode[c].p;
      if s.sw[p] != On || a.YieldLock? { SwitchingFate(s, c, p, a, k); }
      else if a.ForkLook? || a.ForkTake? || a.ForkFail? || a.ForkUnlock? || a.ForkWait? || a.ForkParent? || a.ForkLock?
        || a.ForkRun? { ForkingFate(s, c, p, a, k); }
      else if a.KillLock? || a.KillDo? || a.WakeLock? || a.WakeDo? || a.SleepLock? || a.SleepDo? {
        SignalsFate(s, c, p, a, k);
      }
      else if a.ExitStart? || a.ReparentStep? || a.ReparentLock? || a.ReparentDo? { ReparentsFate(s, c, p, a, k); }
      else if a.ExitWakeLock? || a.ExitWakeDo? || a.ExitLock? || a.ExitDo? { ExitFate(s, c, p, a, k); }
      else if a.WaitStart? || a.WaitLook? || a.WaitDo? { WaitScansFate(s, c, p, a, k); }
      else { WaitSleepsFate(s, c, p, a, k); }
    }
  }

  lemma NoCpu(s: State, c: nat, a: Action, k: nat)
    requires Sized(s) && k < NPROC && c >= |s.mode| && (a.Pick? || a.Check? || a.Drop? || a.Ring?)
    ensures Fate(s, s, c, a, k)
  {
    hide Actor, Place;
  }

  // The moments at which an entry of the process table changes hands.
  datatype Event = Take | GiveUp | End | Reap

  predicate Happens(e: Event, s: State, c: nat, a: Action, k: nat)
    requires Sized(s) && k < NPROC
  {
    match e
    case Take => Takes(s, c, a, k)
    case GiveUp => GivesUp(s, c, a, k)
    case End => Ends(s, c, a, k)
    case Reap => Reaps(s, c, a, k)
  }

  // In a state of a run only the four events make or end an entry or a zombie.
  lemma Lives(s: State, c: nat, a: Action, k: nat)
    requires Sized(s) && Inv(s) && k < NPROC
    ensures
      var s' := Step(s, c, a);
      && (s'.st[k] == ZOMBIE <==> Ends(s, c, a, k) || (s.st[k] == ZOMBIE && !Reaps(s, c, a, k)))
      && (s'.st[k] == UNUSED <==>
          GivesUp(s, c, a, k) || Reaps(s, c, a, k) || (s.st[k] == UNUSED && !Takes(s, c, a, k)))
    ensures LifeBefore(s, c, a, k)
  {
    hide Step, Inv, Takes, GivesUp, Starts, Ends, Reaps, Sleeps, Yields, Picks, Rouses;
    StepFate(s, c, a, k);
    Befores(s, c, a, k);
  }

  // What k must be for something to happen to it.
  ghost predicate LifeBefore(s: State, c: nat, a: Action, k: nat)
    requires Sized(s) && k < NPROC
  {
    && (Takes(s, c, a, k) ==> s.st[k] == UNUSED)
    && (GivesUp(s, c, a, k) || Starts(s, c, a, k) ==> s.st[k] == USED)
    && (Ends(s, c, a, k) || Sleeps(s, c, a, k) || Yields(s, c, a, k) ==> s.st[k] == RUNNING)
    && (Reaps(s, c, a, k) ==> s.st[k] == ZOMBIE)
    && (Picks(s, c, a, k) ==> s.st[k] == RUNNABLE)
    && (Rouses(s, c, a, k) ==> s.st[k] == SLEEPING)
  }

  lemma Befores(s: State, c: nat, a: Action, k: nat)
    requires Sized(s) && Inv(s) && k < NPROC
    ensures LifeBefore(s, c, a, k)
  {
    hide Inv, Actor, Place;
    if GivesUp(s, c, a, k) || Starts(s, c, a, k) { Starters(s, c, a, k); }
    if Ends(s, c, a, k) || Sleeps(s, c, a, k) || Yields(s, c, a, k) { Runners(s, c, a, k); }
  }

  lemma Starters(s: State, c: nat, a: Action, k: nat)
    requires Sized(s) && Inv(s) && k < NPROC && (GivesUp(s, c, a, k) || Starts(s, c, a, k))
    ensures s.st[k] == USED
  {
    var p := Actor(s, c);
    Knows(s, p);
    hide Inv;
  }

  lemma Runners(s: State, c: nat, a: Action, k: nat)
    requires Sized(s) && Inv(s) && k < NPROC && (Ends(s, c, a, k) || Sleeps(s, c, a, k) || Yields(s, c, a, k))
    ensures s.st[k] == RUNNING
  {
    Knows(s, k);
    hide Inv;
  }

  // e happens to k in turn i.
  ghost predicate At(ncpu: nat, run: seq<Turn>, i: nat, e: Event, k: nat)
    requires k < NPROC
  {
    i < |run| && Happens(e, After(ncpu, run[..i]), run[i].c, run[i].a, k)
  }

  // How often e happens to k in a run.
  ghost function Times(ncpu: nat, run: seq<Turn>, e: Event, k: nat): nat
    requires k < NPROC
  {
    if run == [] then 0
    else
      Times(ncpu, run[..|run| - 1], e, k) + if At(ncpu, run, |run| - 1, e, k) then 1 else 0
  }

  /** Every exit is waited for at most once, and a zombie is an exit not yet waited for. */
  lemma {:induction false} EachExitOnce(ncpu: nat, run: seq<Turn>, k: nat)
    requires k < NPROC
    ensures Times(ncpu, run, End, k) == Times(ncpu, run, Reap, k) + if After(ncpu, run).st[k] == ZOMBIE then 1 else 0
  {
    hide Step, Inv, Boot, Takes, GivesUp, Starts, Ends, Reaps;
    if run == [] {
      BootLives(ncpu, k);
    } else {
      var was, t := run[..|run| - 1], run[|run| - 1];
      EachExitOnce(ncpu, was, k);
      RunInv(ncpu, was);
      Lives(After(ncpu, was), t.c, t.a, k);
    }
  }

  /** An entry that fork takes is given back once, by that fork or by a wait; init's is never. */
  lemma {:induction false} EntriesConserved(ncpu: nat, run: seq<Turn>, k: nat)
    requires k < NPROC
    ensures Times(ncpu, run, Take, k) + (if k == INIT then 1 else 0)
      == Times(ncpu, run, Reap, k) + Times(ncpu, run, GiveUp, k) + if After(ncpu, run).st[k] != UNUSED then 1 else 0
  {
    hide Step, Inv, Boot, Takes, GivesUp, Starts, Ends, Reaps;
    if run == [] {
      BootLives(ncpu, k);
    } else {
      var was, t := run[..|run| - 1], run[|run| - 1];
      EntriesConserved(ncpu, was, k);
      RunInv(ncpu, was);
      Lives(After(ncpu, was), t.c, t.a, k);
    }
  }

  lemma BootLives(ncpu: nat, k: nat)
    requires k < NPROC
    ensures Boot(ncpu).st[k] == if k == INIT then RUNNABLE else UNUSED
  {
  }

  /** After the turn in which a wait returns k, k's entry is blank and nobody else's has changed. */
  lemma ReapFrees(ncpu: nat, run: seq<Turn>, n: nat, k: nat, x: nat)
    requires k < NPROC && x < NPROC && At(ncpu, run, n, Reap, k)
    ensures
      var s, s' := After(ncpu, run[..n]), After(ncpu, run[..n + 1]);
      && s'.st[k] == UNUSED && s'.parent[k] == NONE && !s'.killed[k] && s'.chan[k] == NoChan
      && (x != k ==> s'.st[x] == s.st[x] && s'.parent[x] == s.parent[x] && s'.killed[x] == s.killed[x])
  {
    hide After, Step, Actor, Place;
    var s, t := After(ncpu, run[..n]), run[n];
    Next(ncpu, run, n);
    ReapBlanks(s, t.c, k);
    ReapLeaves(s, t.c, k, k);
    ReapLeaves(s, t.c, k, x);
  }

  lemma ReapBlanks(s: State, c: nat, k: nat)
    requires Sized(s) && k < NPROC && Reaps(s, c, WaitDo(false), k)
    ensures Step(s, c, WaitDo(false)).chan[k] == NoChan
  {
  }

  lemma ReapLeaves(s: State, c: nat, k: nat, x: nat)
    requires Sized(s) && k < NPROC && x < NPROC && Reaps(s, c, WaitDo(false), k)
    ensures
      var s' := Step(s, c, WaitDo(false));
      if x == k then s'.st[k] == UNUSED && s'.parent[k] == NONE && !s'.killed[k]
      else s'.st[x] == s.st[x] && s'.parent[x] == s.parent[x] && s'.killed[x] == s.killed[x]
  {
    hide Step, Actor, Place;
    StepFate(s, c, WaitDo(false), x);
  }

  lemma Next(ncpu: nat, run: seq<Turn>, n: nat)
    requires n < |run|
    ensures After(ncpu, run[..n + 1]) == Step(After(ncpu, run[..n]), run[n].c, run[n].a)
  {
    assert run[..n + 1][..n] == run[..n];
  }

  // A turn from n on in which a fork takes k.
  ghost predicate TakenSince(ncpu: nat, run: seq<Turn>, n: nat, k: nat)
    requires k < NPROC
  {
    exists i: nat :: n <= i && At(ncpu, run, i, Take, k)
  }

  // A fork takes k in a turn from n on, and in a later one k exits.
  ghost predicate LivedSince(ncpu: nat, run: seq<Turn>, n: nat, k: nat)
    requires k < NPROC
  {
    exists i: nat, j: nat :: n <= i < j && At(ncpu, run, i, Take, k) && At(ncpu, run, j, End, k)
  }

  lemma {:induction false} Taken(ncpu: nat, run: seq<Turn>, n: nat, k: nat)
    requires k < NPROC && n <= |run| && After(ncpu, run[..n]).st[k] == UNUSED != After(ncpu, run).st[k]
    ensures TakenSince(ncpu, run, n, k)
    decreases |run|
  {
    hide Step, Inv, Takes, GivesUp, Starts, Ends, Reaps, Boot, After;
    assert run[..|run|] == run;
    if n < |run| {
      var was, t := run[..|run| - 1], run[|run| - 1];
      assert was[..n] == run[..n];
      RunInv(ncpu, was);
      Lives(After(ncpu, was), t.c, t.a, k);
      Next(ncpu, run, |run| - 1);
      if After(ncpu, was).st[k] == UNUSED {
        assert At(ncpu, run, |run| - 1, Take, k);
      } else {
        Taken(ncpu, was, n, k);
        var i: nat :| n <= i && At(ncpu, was, i, Take, k);
        assert was[..i] == run[..i];
        assert At(ncpu, run, i, Take, k);
      }
    }
  }

  /** A process whose entry is unused is not a zombie before a fork has taken the entry and it has run exit. */
  lemma {:induction false} ZombieLived(ncpu: nat, run: seq<Turn>, n: nat, k: nat)
    requires k < NPROC && n <= |run| && After(ncpu, run[..n]).st[k] == UNUSED && After(ncpu, run).st[k] == ZOMBIE
    ensures LivedSince(ncpu, run, n, k)
    decreases |run|
  {
    hide Step, Inv, Takes, GivesUp, Starts, Ends, Reaps, Boot, After;
    assert run[..|run|] == run;
    if n < |run| {
      var was, t := run[..|run| - 1], run[|run| - 1];
      assert was[..n] == run[..n];
      RunInv(ncpu, was);
      Lives(After(ncpu, was), t.c, t.a, k);
      Next(ncpu, run, |run| - 1);
      if After(ncpu, was).st[k] == ZOMBIE {
        ZombieLived(ncpu, was, n, k);
        var i: nat, j: nat :| n <= i < j && At(ncpu, was, i, Take, k) && At(ncpu, was, j, End, k);
        assert was[..i] == run[..i] && was[..j] == run[..j];
        assert At(ncpu, run, i, Take, k) && At(ncpu, run, j, End, k);
      } else {
        assert At(ncpu, run, |run| - 1, End, k);
        Taken(ncpu, was, n, k);
        var i: nat :| n <= i && At(ncpu, was, i, Take, k);
        assert was[..i] == run[..i];
        assert At(ncpu, run, i, Take, k);
      }
    }
  }

  /** Between two turns in which a wait returns k, a fork takes k's entry and then k exits. */
  lemma BetweenReaps(ncpu: nat, run: seq<Turn>, n: nat, m: nat, k: nat)
    requires k < NPROC && n < m && At(ncpu, run, n, Reap, k) && At(ncpu, run, m, Reap, k)
    ensures LivedSince(ncpu, run[..m], n + 1, k)
  {
    hide After, Step;
    ReapFrees(ncpu, run, n, k, k);
    assert run[..m][..n + 1] == run[..n + 1];
    ZombieLived(ncpu, run[..m], n + 1, k);
  }
}
