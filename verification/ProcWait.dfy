/** What wait and sleep rely on: who has been looked at, who is asleep where, and on which channel
    (kernel/proc.c). */
module ProcWait {
  import opened Proc
  import opened ProcLife

  // One of the first n entries is a child of p.
  ghost predicate HasChild(parent: seq<int>, p: nat, n: nat) {
    exists x :: 0 <= x < n && x < |parent| && parent[x] == p
  }

  predicate InWait(pc: Pc) {
    pc.WaitScan? || pc.WaitScan2? || pc.WaitKilled? || pc.WaitKilledOwn? || pc.WaitSleep? || pc.WaitDrop?
  }

  // What a wait of p's has found out so far.
  ghost predicate Tally(s: State, p: nat)
    requires Sized(s) && p < NPROC
  {
    match s.pc[p]
    case WaitScan(k, kids) => kids <==> HasChild(s.parent, p, k)
    case WaitScan2(k, kids) => k < NPROC && s.parent[k] == p && (kids <==> HasChild(s.parent, p, k))
    case pc => InWait(pc) ==> HasChild(s.parent, p, NPROC)
  }

  // A step other than of wait leaves its process out of wait, or does nothing to it.
  ghost predicate Elsewhere(s: State, s': State, q: nat)
    requires Sized(s) && Sized(s') && q < NPROC
  {
    s'.pc[q] == s.pc[q] || !InWait(s'.pc[q])
  }

  lemma SchedulerElsewhere(s: State, c: nat, a: Action, q: nat)
    requires Sized(s) && c < |s.mode| && q < NPROC
    ensures Elsewhere(s, Scheduler(s, c, a), q)
  {
  }

  lemma SwitchingElsewhere(s: State, c: nat, p: nat, a: Action, q: nat)
    requires Sized(s) && c < |s.mode| && p < NPROC && q < NPROC
    ensures Elsewhere(s, Switching(s, c, p, a), q)
  {
  }

  lemma ForkingElsewhere(s: State, c: nat, p: nat, a: Action, q: nat)
    requires Sized(s) && c < |s.mode| && p < NPROC && q < NPROC
    ensures Elsewhere(s, Forking(s, c, p, a), q)
  {
  }

  lemma SignalsElsewhere(s: State, c: nat, p: nat, a: Action, q: nat)
    requires Sized(s) && c < |s.mode| && p < NPROC && q < NPROC
    ensures Elsewhere(s, Signals(s, c, p, a), q)
  {
  }

  lemma ReparentsElsewhere(s: State, c: nat, p: nat, a: Action, q: nat)
    requires Sized(s) && c < |s.mode| && p < NPROC && q < NPROC
    ensures Elsewhere(s, Reparents(s, c, p, a), q)
  {
  }

  lemma ExitElsewhere(s: State, c: nat, p: nat, a: Action, q: nat)
    requires Sized(s) && c < |s.mode| && p < NPROC && q < NPROC
    ensures Elsewhere(s, Exit(s, c, p, a), q)
  {
  }

  lemma WaitElsewhere(s: State, c: nat, p: nat, a: Action, q: nat)
    requires Sized(s) && c < |s.mode| && p < NPROC && q < NPROC && q != p
    ensures Elsewhere(s, WaitScans(s, c, p, a), q) && Elsewhere(s, WaitSleeps(s, c, p, a), q)
  {
  }

  predicate OfWait(a: Action) {
    a.WaitStart? || a.WaitLook? || a.WaitDo? || a.KilledLock? || a.KilledDo? || a.WaitLock? || a.WaitUnlock?
    || a.WaitSet? || a.YieldSet? || a.SwitchOut? || a.Arrived?
  }

  // The step moves q itself, within wait.
  predicate Waits(s: State, c: nat, a: Action, q: nat)
    requires Sized(s)
  {
    Acts(s, c, q) && OfWait(a)
  }

  lemma StepElsewhere(s: State, c: nat, a: Action, q: nat)
    requires Sized(s) && q < NPROC && !Waits(s, c, a, q)
    ensures Elsewhere(s, Step(s, c, a), q)
  {
    hide Scheduler, Switching, Forking, Signals, Reparents, Exit, WaitScans, WaitSleeps;
    if c < |s.mode| {
      SchedulerElsewhere(s, c, a, q);
      if s.mode[c].Runs? && s.mode[c].p < NPROC {
        var p := s.mode[c].p;
        SwitchingElsewhere(s, c, p, a, q);
        ForkingElsewhere(s, c, p, a, q);
        SignalsElsewhere(s, c, p, a, q);
        ReparentsElsewhere(s, c, p, a, q);
        ExitElsewhere(s, c, p, a, q);
        if q != p { WaitElsewhere(s, c, p, a, q); }
      }
    }
  }

  // Parents change only in the hands of the holder of wait_lock.
  predicate Fathers(pc: Pc) { pc.ForkAdopt? || pc.Reparent? || pc.WaitScan2? }

  lemma ParentsStay(s: State, c: nat, a: Action)
    requires Sized(s) && Inv(s) && !Fathers(Place(s, c))
    ensures Step(s, c, a).parent == s.parent
  {
    hide Step, Inv, Actor, Place;
    var s' := Step(s, c, a);
    forall x: nat | x < NPROC ensures s'.parent[x] == s.parent[x] {
      StepFate(s, c, a, x);
      if GivesUp(s, c, a, x) { Childless(s, c, a, x); }
    }
  }

  lemma Childless(s: State, c: nat, a: Action, x: nat)
    requires Sized(s) && Inv(s) && x < NPROC && GivesUp(s, c, a, x)
    ensures s.parent[x] == NONE
  {
    hide Inv;
    Knows(s, Actor(s, c));
  }

  lemma OthersTally(s: State, c: nat, a: Action, q: nat)
    requires Sized(s) && Inv(s) && q < NPROC && Tally(s, q) && !Acts(s, c, q)
    ensures Tally(Step(s, c, a), q)
  {
    hide Step, Inv, HasChild;
    StepElsewhere(s, c, a, q);
    if InWait(Step(s, c, a).pc[q]) {
      OneWaits(s, c, q);
      ParentsStay(s, c, a);
    } else {
      OutOfWait(Step(s, c, a), q);
    }
  }

  lemma OutOfWait(s: State, q: nat)
    requires Sized(s) && q < NPROC && !InWait(s.pc[q])
    ensures Tally(s, q)
  {
  }

  lemma OneWaits(s: State, c: nat, q: nat)
    requires Sized(s) && Inv(s) && q < NPROC && InWait(s.pc[q]) && !Acts(s, c, q)
    ensures !Fathers(Place(s, c))
  {
    hide Forks, Family;
    var p := Actor(s, c);
    assert s.sw[q] == On && HoldsWait(s.pc[q], s.sw[q]);
    assert p < NPROC ==> s.wlock != s.on[p];
  }

  lemma ScansTally(s: State, c: nat, p: nat, a: Action)
    requires Sized(s) && Acts(s, c, p) && Tally(s, p)
    ensures Tally(WaitScans(s, c, p, a), p)
  {
    hide HasChild;
    match s.pc[p]
    case WaitScan(k, kids) => OneMore(s.parent, p, k);
    case WaitScan2(k, kids) => OneMore(s.parent, p, k);
    case _ => OneMore(s.parent, p, 0);
  }

  // The tally after looking at one more entry.
  lemma OneMore(parent: seq<int>, p: nat, k: nat)
    ensures !HasChild(parent, p, 0)
    ensures HasChild(parent, p, k + 1) <==> HasChild(parent, p, k) || (k < |parent| && parent[k] == p)
    ensures k >= |parent| ==> (HasChild(parent, p, k) <==> HasChild(parent, p, |parent|))
  {
    if k < |parent| && parent[k] == p { assert parent[k] == p; }
    if HasChild(parent, p, k) {
      var x :| 0 <= x < k && x < |parent| && parent[x] == p;
      assert 0 <= x < k + 1;
    }
  }

  lemma SleepsTally(s: State, c: nat, p: nat, a: Action)
    requires Sized(s) && Acts(s, c, p) && Tally(s, p)
    ensures Tally(WaitSleeps(s, c, p, a), p)
  {
    hide HasChild;
  }

  lemma StepTally(s: State, c: nat, a: Action, q: nat)
    requires Sized(s) && Inv(s) && q < NPROC && Tally(s, q)
    ensures Tally(Step(s, c, a), q)
  {
    hide Inv, Tally, Scheduler, Switching, Forking, Signals, Reparents, Exit, WaitScans, WaitSleeps;
    if !Acts(s, c, q) {
      OthersTally(s, c, a, q);
    } else if OfWait(a) {
      ScansTally(s, c, q, a);
      SleepsTally(s, c, q, a);
    } else {
      OwnTally(s, c, a, q);
    }
  }

  // Any step of q's own that is not of wait.
  lemma OwnTally(s: State, c: nat, a: Action, q: nat)
    requires Sized(s) && Inv(s) && q < NPROC && Tally(s, q) && Acts(s, c, q) && !OfWait(a)
    ensures Tally(Step(s, c, a), q)
  {
    hide Step, Inv, HasChild;
    StepElsewhere(s, c, a, q);
    if InWait(Step(s, c, a).pc[q]) {
      OwnParents(s, c, a, q);
    }
  }

  // In wait, only WaitDo changes parents.
  lemma OwnParents(s: State, c: nat, a: Action, q: nat)
    requires Sized(s) && Inv(s) && q < NPROC && Acts(s, c, q) && InWait(s.pc[q]) && !a.WaitDo?
    ensures Step(s, c, a).parent == s.parent
  {
    hide Step, Inv, Actor, Place;
    PlaceIs(s, c, q);
    var s' := Step(s, c, a);
    forall x: nat | x < NPROC ensures s'.parent[x] == s.parent[x] {
      StepFate(s, c, a, x);
    }
  }

  lemma {:induction false} RunTally(ncpu: nat, run: seq<Turn>, q: nat)
    requires q < NPROC
    ensures Tally(After(ncpu, run), q)
  {
    hide Step, Inv, HasChild;
    if run != [] {
      var was, t := run[..|run| - 1], run[|run| - 1];
      RunTally(ncpu, was, q);
      RunInv(ncpu, was);
      StepTally(After(ncpu, was), t.c, t.a, q);
    }
  }

  /** wait frees a child of the process that waits, never anyone else's. */
  lemma ReaperIsParent(ncpu: nat, run: seq<Turn>, n: nat, k: nat)
    requires k < NPROC && At(ncpu, run, n, Reap, k)
    ensures var s := After(ncpu, run[..n]); Acts(s, run[n].c, Actor(s, run[n].c)) && s.parent[k] == Actor(s, run[n].c)
  {
    hide After, Step;
    RunTally(ncpu, run[..n], Actor(After(ncpu, run[..n]), run[n].c));
  }

  // p's wait ends in a turn of CPU c without having found a zombie.
  ghost predicate ReturnsNone(s: State, c: nat, a: Action, p: nat)
    requires Sized(s)
  {
    Acts(s, c, p) && InWait(s.pc[p]) && !s.pc[p].WaitScan2? && Step(s, c, a).pc[p] == Run
  }

  /** A wait that finds no zombie returns only if its caller has no child or has been killed. */
  lemma WaitGivesUp(ncpu: nat, run: seq<Turn>, n: nat, p: nat)
    requires n < |run| && p < NPROC && ReturnsNone(After(ncpu, run[..n]), run[n].c, run[n].a, p)
    ensures var s := After(ncpu, run[..n]); s.killed[p] || forall x :: 0 <= x < NPROC ==> s.parent[x] != p
  {
    hide After;
    RunTally(ncpu, run[..n], p);
  }

  /** A wait goes to sleep only if its caller has a child, and none of its children is a zombie. */
  lemma WaitHasReason(ncpu: nat, run: seq<Turn>, p: nat)
    requires p < NPROC && After(ncpu, run).pc[p] == WaitDrop
    ensures
      var s := After(ncpu, run);
      && (exists x :: 0 <= x < NPROC && s.parent[x] == p)
      && (forall x :: 0 <= x < NPROC && s.parent[x] == p ==> s.st[x] != ZOMBIE)
  {
    hide After, Locked, Placed, Forks;
    RunTally(ncpu, run, p);
    RunInv(ncpu, run);
  }

  // Where k is while it is asleep, exited or not yet started, and what its channel is then.
  ghost predicate Abed(s: State, k: nat)
    requires Sized(s) && k < NPROC
  {
    && (s.st[k] == SLEEPING ==> s.pc[k].Waiting? || s.pc[k].Slept?)
    && (s.pc[k].Waiting? ==> s.chan[k] == Of(k)) && (s.pc[k].Slept? ==> s.chan[k] == Other(s.pc[k].n))
    && (s.st[k] == ZOMBIE ==> s.pc[k] == Dead) && (s.st[k] == USED ==> s.pc[k] == Run)
  }

  lemma SchedulerAbed(s: State, c: nat, a: Action, k: nat)
    requires Sized(s) && c < |s.mode| && k < NPROC && Abed(s, k)
    ensures Abed(Scheduler(s, c, a), k)
  {
  }

  lemma SwitchingAbed(s: State, c: nat, p: nat, a: Action, k: nat)
    requires Sized(s) && c < |s.mode| && p < NPROC && k < NPROC && Abed(s, k)
    requires s.sw[p] == Arrive || s.sw[p] == Yield ==> s.st[p] == RUNNING
    ensures Abed(Switching(s, c, p, a), k)
  {
  }

  lemma ForkingAbed(s: State, c: nat, p: nat, a: Action, k: nat)
    requires Sized(s) && c < |s.mode| && p < NPROC && k < NPROC && Abed(s, k) && s.st[p] == RUNNING && ForkKnows(s, p)
    ensures Abed(Forking(s, c, p, a), k)
  {
  }

  lemma SignalsAbed(s: State, c: nat, p: nat, a: Action, k: nat)
    requires Sized(s) && c < |s.mode| && p < NPROC && k < NPROC && Abed(s, k) && s.st[p] == RUNNING
    ensures Abed(Signals(s, c, p, a), k)
  {
  }

  lemma ReparentsAbed(s: State, c: nat, p: nat, a: Action, k: nat)
    requires Sized(s) && c < |s.mode| && p < NPROC && k < NPROC && Abed(s, k) && s.st[p] == RUNNING
    ensures Abed(Reparents(s, c, p, a), k)
  {
  }

  lemma ExitAbed(s: State, c: nat, p: nat, a: Action, k: nat)
    requires Sized(s) && c < |s.mode| && p < NPROC && k < NPROC && Abed(s, k) && s.st[p] == RUNNING
    ensures Abed(Exit(s, c, p, a), k)
  {
  }

  lemma WaitScansAbed(s: State, c: nat, p: nat, a: Action, k: nat)
    requires Sized(s) && c < |s.mode| && p < NPROC && k < NPROC && Abed(s, k) && s.st[p] == RUNNING
    ensures Abed(WaitScans(s, c, p, a), k)
  {
  }

  lemma WaitSleepsAbed(s: State, c: nat, p: nat, a: Action, k: nat)
    requires Sized(s) && c < |s.mode| && p < NPROC && k < NPROC && Abed(s, k) && s.st[p] == RUNNING
    ensures Abed(WaitSleeps(s, c, p, a), k)
  {
  }

  lemma StepAbed(s: State, c: nat, a: Action, k: nat)
    requires Sized(s) && Inv(s) && k < NPROC && Abed(s, k)
    ensures Abed(Step(s, c, a), k)
  {
    hide Inv, Abed, ForkKnows, Scheduler, Switching, Forking, Signals, Reparents, Exit, WaitScans, WaitSleeps;
    if c < |s.mode| {
      SchedulerAbed(s, c, a, k);
      if s.mode[c].Runs? && s.mode[c].p < NPROC {
        var p := s.mode[c].p;
        Knows(s, p);
        SwitchingAbed(s, c, p, a, k);
        if s.sw[p] == On {
          ForkingAbed(s, c, p, a, k);
          SignalsAbed(s, c, p, a, k);
          ReparentsAbed(s, c, p, a, k);
          ExitAbed(s, c, p, a, k);
          WaitScansAbed(s, c, p, a, k);
          WaitSleepsAbed(s, c, p, a, k);
        }
      }
    }
  }

  /** A sleeper is asleep on the channel that it went to sleep on: its own entry if it waits for a child. */
  lemma {:induction false} RunAbed(ncpu: nat, run: seq<Turn>, k: nat)
    requires k < NPROC
    ensures Abed(After(ncpu, run), k)
  {
    hide Step, Inv;
    if run != [] {
      hide Boot;
      var was, t := run[..|run| - 1], run[|run| - 1];
      RunAbed(ncpu, was, k);
      RunInv(ncpu, was);
      StepAbed(After(ncpu, was), t.c, t.a, k);
    }
  }

  // In this step a wakeup on Other(n) looks at k.
  predicate Calls(s: State, c: nat, a: Action, k: nat, n: nat)
    requires Sized(s) && k < NPROC
  {
    || (a == WakeDo && Place(s, c) == Wake2(k, n))
    || (a == Ring(n) && c < |s.mode| && s.mode[c] == Holding(k))
  }

  /** A wakeup on n makes runnable each process that it looks at and that went to sleep on n, and no other. */
  lemma WakeupWakes(ncpu: nat, run: seq<Turn>, i: nat, k: nat, n: nat)
    requires i < |run| && k < NPROC && Calls(After(ncpu, run[..i]), run[i].c, run[i].a, k, n)
    ensures
      var s, s' := After(ncpu, run[..i]), After(ncpu, run[..i + 1]);
      if s.st[k] == SLEEPING && s.pc[k] == Slept(n) then s'.st[k] == RUNNABLE else s'.st[k] == s.st[k]
  {
    hide After, Step, Actor, Place;
    RunAbed(ncpu, run[..i], k);
    Next(ncpu, run, i);
    StepFate(After(ncpu, run[..i]), run[i].c, run[i].a, k);
  }

  /** kill marks its target and takes it out of any sleep. */
  lemma KillWakes(ncpu: nat, run: seq<Turn>, i: nat, k: nat)
    requires i < |run| && k < NPROC && run[i].a == KillDo && Place(After(ncpu, run[..i]), run[i].c) == Kill2(k)
    ensures var s' := After(ncpu, run[..i + 1]); s'.killed[k] && s'.st[k] != SLEEPING
  {
    hide After, Step, Actor, Place;
    Next(ncpu, run, i);
    StepFate(After(ncpu, run[..i]), run[i].c, run[i].a, k);
  }
}
