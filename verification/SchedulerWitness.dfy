// A run of the step system in which the scheduler takes ptable.lock with interrupts on and gives it back
// with interrupts off: one process, dispatched once, preempted once by the timer.

module SchedulerWitness {
  import opened Machine
  import opened Scheduler
  import opened Spinlock

  /** Where the CPU is in a system with one process, in slot 0: the running thread, the other of the two
      threads that matter, the flags, ptable.lock, and that process. */
  ghost predicate Spot(s: State, run: nat, me: Thread, other: Thread, c: Flags, held: bool, p0: PState, cur: Option<nat>) {
    && !s.panicked && |s.threads| == NPROC + 1 && |s.procs| == NPROC && |s.pids| == NPROC
    && (run == SCHED || run == 0)
    && s.run == run && s.threads[run] == me && s.threads[if run == SCHED then 0 else SCHED] == other
    && FlagsOf(s) == c && s.ptable == held
    && s.procs[0] == p0 && s.cur == cur
    && forall q :: 1 <= q < NPROC ==> s.procs[q] == UNUSED
  }

  ghost predicate Reachable(s: State) {
    exists cs :: Exec(Scheduler.Boot(), cs) == s
  }

  lemma ReachOne(s: State, c: Choice)
    requires Reachable(s)
    ensures Reachable(Step(s, c))
  {
    hide Step;
    var cs :| Exec(Scheduler.Boot(), cs) == s;
    assert (cs + [c])[..|cs|] == cs;
    assert Exec(Scheduler.Boot(), cs + [c]) == Step(s, c);
  }

  lemma {:induction false} ReachQuiet(s: State, n: nat)
    requires Reachable(s)
    ensures Reachable(Quiet(s, n))
    decreases n
  {
    hide Step, Reachable;
    if n > 0 {
      ReachOne(s, Go(None));
      ReachQuiet(Next(s), n - 1);
    }
  }

  lemma {:induction false} QuietAdd(s: State, m: nat, n: nat)
    ensures Quiet(s, m + n) == Quiet(Quiet(s, m), n)
    decreases m
  {
    hide Next;
    if m > 0 {
      QuietAdd(Next(s), m - 1, n);
    }
  }

  // ---- acquire and release as a whole ----

  lemma SpotAt(s: State, d: State, run: nat, sv: Option<Pc>, pc: Pc, npc: Pc, other: Thread, c: Flags, e: Flags, held: bool, now: bool,
               p0: PState, cur: Option<nat>)
    requires Spot(s, run, Thread(pc, sv), other, c, held, p0, cur)
    requires d == s.(ptable := now, locking := d.locking)
    ensures Spot(At(d, e, npc), run, Thread(npc, sv), other, e, now, p0, cur)
  {
  }

  lemma PushPart(s: State, run: nat, t: Task, sv: Option<Pc>, other: Thread, c: Flags, held: bool, p0: PState, cur: Option<nat>)
    requires Spot(s, run, Thread(ReadFlags(t), sv), other, c, held, p0, cur)
    ensures Spot(Quiet(s, 4), run, Thread(if t.Uvm? then PopTest(t) else TestHolding(t), sv), other, Pushed(c), held, p0, cur)
  {
    PushcliSteps(s, t);
    hide Quiet, Pushed, At;
    SpotAt(s, s, run, sv, ReadFlags(t), if t.Uvm? then PopTest(t) else TestHolding(t), other, c, Pushed(c), held, held, p0, cur);
  }

  lemma PopPart(s: State, run: nat, t: Task, sv: Option<Pc>, other: Thread, c: Flags, held: bool, p0: PState, cur: Option<nat>)
    requires Spot(s, run, Thread(PopTest(t), sv), other, c, held, p0, cur) && MayPop(c)
    ensures Spot(Quiet(s, 3), run, Thread(After(t, sv.Some?), sv), other, Popped(c), held, p0, cur)
  {
    PopcliSteps(s, t);
    hide Quiet, Popped, At, After;
    SpotAt(s, s, run, sv, PopTest(t), After(t, sv.Some?), other, c, Popped(c), held, held, p0, cur);
  }

  lemma TakePart(s: State, run: nat, t: Task, sv: Option<Pc>, other: Thread, c: Flags, p0: PState, cur: Option<nat>)
    requires Spot(s, run, Thread(TestHolding(t), sv), other, c, false, p0, cur) && LockOf(t).Ptable?
    ensures Spot(Quiet(s, 2), run, Thread(Critical(t), sv), other, c, true, p0, cur)
  {
    AcquireSteps(s, t);
    hide Quiet, At;
    SpotAt(s, Taken(s, Ptable), run, sv, TestHolding(t), Critical(t), other, c, c, false, true, p0, cur);
  }

  lemma DropPart(s: State, run: nat, t: Task, sv: Option<Pc>, other: Thread, c: Flags, p0: PState, cur: Option<nat>)
    requires Spot(s, run, Thread(Leave(t), sv), other, c, true, p0, cur) && LockOf(t).Ptable?
    ensures Spot(Quiet(s, 2), run, Thread(PopTest(t), sv), other, c, false, p0, cur)
  {
    ReleaseSteps(s, t);
    hide Quiet, At;
    SpotAt(s, Dropped(s, Ptable), run, sv, Leave(t), PopTest(t), other, c, c, true, false, p0, cur);
  }

  lemma Acquire(s: State, run: nat, t: Task, sv: Option<Pc>, other: Thread, c: Flags, p0: PState, cur: Option<nat>)
    requires Spot(s, run, Thread(ReadFlags(t), sv), other, c, false, p0, cur) && LockOf(t).Ptable? && !t.Uvm?
    ensures Spot(Quiet(s, 6), run, Thread(Critical(t), sv), other, Pushed(c), true, p0, cur)
  {
    hide Quiet, Spot, Pushed;
    QuietAdd(s, 4, 2);
    PushPart(s, run, t, sv, other, c, false, p0, cur);
    TakePart(Quiet(s, 4), run, t, sv, other, Pushed(c), p0, cur);
  }

  lemma Release(s: State, run: nat, t: Task, sv: Option<Pc>, other: Thread, c: Flags, p0: PState, cur: Option<nat>)
    requires Spot(s, run, Thread(Leave(t), sv), other, c, true, p0, cur) && LockOf(t).Ptable? && MayPop(c)
    ensures Spot(Quiet(s, 2), run, Thread(PopTest(t), sv), other, c, false, p0, cur)
    ensures Spot(Quiet(s, 5), run, Thread(After(t, sv.Some?), sv), other, Popped(c), false, p0, cur)
  {
    hide Quiet, Spot, Popped, After;
    QuietAdd(s, 2, 3);
    DropPart(s, run, t, sv, other, c, p0, cur);
    PopPart(Quiet(s, 2), run, t, sv, other, c, false, p0, cur);
  }

  // ---- Single statements ----

  lemma BeginTask(s: State, t: Task, run: nat, other: Thread, c: Flags, p0: PState, cur: Option<nat>)
    requires Spot(s, run, Thread(Code, None), other, c, false, p0, cur) && MayBegin(run, t, c.flag)
    ensures Spot(Step(s, Go(Some(t))), run, Thread(ReadFlags(t), None), other, c, false, p0, cur)
  {
    hide Body, Switching;
  }

  lemma AllocateSlot(s: State, other: Thread, c: Flags, cur: Option<nat>)
    requires Spot(s, SCHED, Thread(Critical(Allocate), None), other, c, true, UNUSED, cur)
    ensures Spot(Next(s), SCHED, Thread(Leave(Allocated(0)), None), other, c, true, EMBRYO, cur)
  {
    hide Switching;
    FirstUnusedIs(s.procs, 0);
  }

  lemma SetupDone(s: State, other: Thread, c: Flags, p0: PState, cur: Option<nat>)
    requires Spot(s, SCHED, Thread(Setup(0), None), other, c, false, p0, cur)
    ensures Spot(Next(s), SCHED, Thread(ReadFlags(Publish(0)), None), other, c, false, p0, cur)
  {
    hide Body, Switching;
  }

  lemma PublishSlot(s: State, other: Thread, c: Flags, p0: PState, cur: Option<nat>)
    requires Spot(s, SCHED, Thread(Critical(Publish(0)), None), other, c, true, p0, cur)
    ensures Spot(Next(s), SCHED, Thread(Leave(Plain), None), other, c, true, RUNABLE, cur)
  {
    hide Switching;
  }

  lemma ScanBegins(s: State, other: Thread, c: Flags, p0: PState, cur: Option<nat>)
    requires Spot(s, SCHED, Thread(Critical(Schedule(true)), None), other, c, true, p0, cur)
    ensures Spot(Next(s), SCHED, Thread(Scan(true, 0), None), other, c, true, p0, cur)
  {
    hide Switching;
  }

  lemma Dispatch(s: State, other: Thread, c: Flags, cur: Option<nat>)
    requires Spot(s, SCHED, Thread(Scan(true, 0), None), other, c, true, RUNABLE, cur)
    ensures Spot(Quiet(s, 3), SCHED, Thread(ReadFlags(Uvm(true, 0)), None), other, c, true, RUNNING, Some(0))
  {
    assert FirstRunable(s.procs, 0) == Some(0);
    ScanSteps(s, true, 0);
    hide Quiet, FirstRunable;
  }

  lemma UvmPush(s: State, other: Thread, c: Flags, p0: PState, cur: Option<nat>)
    requires Spot(s, SCHED, Thread(ReadFlags(Uvm(true, 0)), None), other, c, true, p0, cur) && c.ncli >= 1
    ensures Spot(Quiet(s, 7), SCHED, Thread(SwitchTo(true, 0), None), other, c.(flag := false), true, p0, cur)
  {
    var t := Uvm(true, 0);
    QuietAdd(s, 4, 3);
    hide Quiet, Spot;
    PushPart(s, SCHED, t, None, other, c, true, p0, cur);
    PopPart(Quiet(s, 4), SCHED, t, None, other, Pushed(c), true, p0, cur);
    assert Popped(Pushed(c)) == c.(flag := false);
  }

  lemma SwitchIn(s: State, other: Thread, c: Flags, p0: PState, cur: Option<nat>)
    requires Spot(s, SCHED, Thread(SwitchTo(true, 0), None), other, c, true, p0, cur)
    ensures Spot(Next(s), 0, other, Thread(Back(true, 0), None), c, true, p0, cur)
  {
    hide Body;
  }

  lemma ToUser(s: State, other: Thread, c: Flags, p0: PState, cur: Option<nat>)
    requires Spot(s, 0, Thread(Trapret, None), other, c, false, p0, cur)
    ensures Spot(Next(s), 0, Thread(Code, None), other, c.(flag := true), false, p0, cur)
  {
    hide Body, Switching;
  }

  lemma TimerFires(s: State, other: Thread, c: Flags, p0: PState, cur: Option<nat>)
    requires Spot(s, 0, Thread(Code, None), other, c, false, p0, cur) && c.flag
    ensures Spot(Step(s, TimerIrq), 0, Thread(TimerTest, Some(Code)), other, c.(flag := false), false, p0, cur)
  {
  }

  lemma TimerYields(s: State, other: Thread, c: Flags)
    requires Spot(s, 0, Thread(TimerTest, Some(Code)), other, c, false, RUNNING, Some(0))
    ensures Spot(Next(s), 0, Thread(ReadFlags(Yield(c.flag)), Some(Code)), other, c, false, RUNNING, Some(0))
  {
    hide Body, Switching;
  }

  lemma YieldMarks(s: State, other: Thread, c: Flags, p0: PState)
    requires Spot(s, 0, Thread(Critical(Yield(false)), Some(Code)), other, c, true, p0, Some(0))
    ensures Spot(Next(s), 0, Thread(Checks(false), Some(Code)), other, c, true, RUNABLE, Some(0))
  {
    hide Switching;
  }

  lemma ChecksPass(s: State, other: Thread, c: Flags)
    requires Spot(s, 0, Thread(Checks(false), Some(Code)), other, c, true, RUNABLE, Some(0)) && c.ncli == 1 && !c.flag
    ensures Spot(Next(s), 0, Thread(SwitchOut(false, c.intena), Some(Code)), other, c, true, RUNABLE, Some(0))
  {
    hide Body;
  }

  lemma SwitchesOut(s: State, other: Thread, c: Flags, v: bool)
    requires Spot(s, 0, Thread(SwitchOut(false, v), Some(Code)), other, c, true, RUNABLE, Some(0))
    ensures Spot(Next(s), SCHED, other, Thread(Resume(false, v), Some(Code)), c, true, RUNABLE, Some(0))
  {
    hide Body;
  }

  lemma ScanGoesOn(s: State, other: Thread, c: Flags)
    requires Spot(s, SCHED, Thread(Back(true, 0), None), other, c, true, RUNABLE, Some(0))
    ensures Spot(Next(s), SCHED, Thread(Scan(true, 1), None), other, c, true, RUNABLE, Some(0))
  {
    hide Body;
  }

  lemma ScanEnds(s: State, other: Thread, c: Flags)
    requires Spot(s, SCHED, Thread(Scan(true, 1), None), other, c, true, RUNABLE, Some(0))
    ensures Spot(Quiet(s, NPROC), SCHED, Thread(Leave(Schedule(true)), None), other, c, true, RUNABLE, Some(0))
  {
    assert FirstRunable(s.procs, 1) == None;
    ScanSteps(s, true, 1);
    hide Quiet;
  }

  lemma PopsTwo(s: State, other: Thread, c: Flags)
    requires Spot(s, SCHED, Thread(PopTest(Schedule(true)), None), other, c, false, RUNABLE, Some(0)) && MayPop(c)
    ensures Spot(Quiet(s, 2), SCHED, Thread(PopSti(Schedule(true)), None), other, c.(ncli := c.ncli - 1), false, RUNABLE, Some(0))
  {
    var t := Schedule(true);
    QuietFour(s);
    AtHere(s);
    PopSteps(s, t, c);
    hide Next, Quiet;
    SpotAt(s, s, SCHED, None, PopTest(t), PopSti(t), other, c, c.(ncli := c.ncli - 1), false, false, RUNABLE, Some(0));
  }

  // ---- The run ----

  const FORK := Thread(Leave(Fork), None)
  const BACK := Thread(Back(true, 0), None)

  /** One process has been made RUNABLE; the scheduler's thread is in its own code, interrupts on. */
  lemma OneProcess() returns (s: State)
    ensures Reachable(s) && Spot(s, SCHED, Thread(Code, None), FORK, Flags(true, 0, true), false, RUNABLE, None)
  {
    hide Step, Quiet, Exec, Reachable, Spot;
    s := Scheduler.Boot();
    assert Reachable(s) && Spot(s, SCHED, Thread(Code, None), FORK, Flags(true, 0, false), false, UNUSED, None) by {
      BootSpot();
    }
    s := Begin(s, Allocate, SCHED, FORK, Flags(true, 0, false), UNUSED, None);
    s := Enter(s, SCHED, Allocate, None, FORK, Flags(true, 0, false), UNUSED, None);
    AllocateSlot(s, FORK, Flags(false, 1, true), None);
    s := One(s);
    s := Exit(s, SCHED, Allocated(0), None, FORK, Flags(false, 1, true), EMBRYO, None);
    SetupDone(s, FORK, Flags(true, 0, true), EMBRYO, None);
    s := One(s);
    s := Enter(s, SCHED, Publish(0), None, FORK, Flags(true, 0, true), EMBRYO, None);
    PublishSlot(s, FORK, Flags(false, 1, true), EMBRYO, None);
    s := One(s);
    s := Exit(s, SCHED, Plain, None, FORK, Flags(false, 1, true), RUNABLE, None);
  }

  lemma BootSpot()
    ensures Reachable(Scheduler.Boot())
    ensures Spot(Scheduler.Boot(), SCHED, Thread(Code, None), FORK, Flags(true, 0, false), false, UNUSED, None)
  {
    assert Exec(Scheduler.Boot(), []) == Scheduler.Boot();
  }

  lemma One(s: State) returns (r: State)
    requires Reachable(s)
    ensures r == Next(s) && Reachable(r)
  {
    ReachOne(s, Go(None));
    r := Next(s);
  }

  lemma Many(s: State, n: nat) returns (r: State)
    requires Reachable(s)
    ensures r == Quiet(s, n) && Reachable(r)
  {
    ReachQuiet(s, n);
    r := Quiet(s, n);
  }

  lemma Begin(s: State, t: Task, run: nat, other: Thread, c: Flags, p0: PState, cur: Option<nat>) returns (r: State)
    requires Reachable(s) && Spot(s, run, Thread(Code, None), other, c, false, p0, cur) && MayBegin(run, t, c.flag)
    ensures Reachable(r) && Spot(r, run, Thread(ReadFlags(t), None), other, c, false, p0, cur)
  {
    ReachOne(s, Go(Some(t)));
    BeginTask(s, t, run, other, c, p0, cur);
    r := Step(s, Go(Some(t)));
  }

  lemma Enter(s: State, run: nat, t: Task, sv: Option<Pc>, other: Thread, c: Flags, p0: PState, cur: Option<nat>) returns (r: State)
    requires Reachable(s) && Spot(s, run, Thread(ReadFlags(t), sv), other, c, false, p0, cur) && LockOf(t).Ptable? && !t.Uvm?
    ensures Reachable(r) && Spot(r, run, Thread(Critical(t), sv), other, Pushed(c), true, p0, cur)
  {
    ReachQuiet(s, 6);
    Acquire(s, run, t, sv, other, c, p0, cur);
    r := Quiet(s, 6);
  }

  lemma Exit(s: State, run: nat, t: Task, sv: Option<Pc>, other: Thread, c: Flags, p0: PState, cur: Option<nat>) returns (r: State)
    requires Reachable(s) && Spot(s, run, Thread(Leave(t), sv), other, c, true, p0, cur) && LockOf(t).Ptable? && MayPop(c)
    ensures Reachable(r) && Spot(r, run, Thread(After(t, sv.Some?), sv), other, Popped(c), false, p0, cur)
  {
    ReachQuiet(s, 5);
    Release(s, run, t, sv, other, c, p0, cur);
    r := Quiet(s, 5);
  }

  /** The scheduler, entered with interrupts on, has dispatched it, and it runs in user mode. */
  lemma ProcessRuns() returns (s: State)
    ensures Reachable(s) && Spot(s, 0, Thread(Code, None), BACK, Flags(true, 0, true), false, RUNNING, Some(0))
  {
    hide Step, Quiet, Exec, Reachable, Spot;
    s := OneProcess();
    s := Begin(s, Schedule(true), SCHED, FORK, Flags(true, 0, true), RUNABLE, None);
    s := Enter(s, SCHED, Schedule(true), None, FORK, Flags(true, 0, true), RUNABLE, None);
    ScanBegins(s, FORK, Flags(false, 1, true), RUNABLE, None);
    s := One(s);
    Dispatch(s, FORK, Flags(false, 1, true), None);
    s := Many(s, 3);
    UvmPush(s, FORK, Flags(false, 1, true), RUNNING, Some(0));
    s := Many(s, 7);
    SwitchIn(s, FORK, Flags(false, 1, true), RUNNING, Some(0));
    s := One(s);
    s := Exit(s, 0, Fork, None, BACK, Flags(false, 1, true), RUNNING, Some(0));
    ToUser(s, BACK, Flags(true, 0, true), RUNNING, Some(0));
    s := One(s);
  }

  /** The timer has preempted it, and the scheduler is back in its scan, still holding the lock. */
  lemma Preempted() returns (s: State)
    ensures Reachable(s)
    ensures Spot(s, SCHED, BACK, Thread(Resume(false, false), Some(Code)), Flags(false, 1, false), true, RUNABLE, Some(0))
  {
    hide Step, Quiet, Exec, Reachable, Spot;
    s := ProcessRuns();
    TimerFires(s, BACK, Flags(true, 0, true), RUNNING, Some(0));
    ReachOne(s, TimerIrq);
    s := Step(s, TimerIrq);
    TimerYields(s, BACK, Flags(false, 0, true));
    s := One(s);
    s := Enter(s, 0, Yield(false), Some(Code), BACK, Flags(false, 0, true), RUNNING, Some(0));
    YieldMarks(s, BACK, Flags(false, 1, false), RUNNING);
    s := One(s);
    ChecksPass(s, BACK, Flags(false, 1, false));
    s := One(s);
    SwitchesOut(s, BACK, Flags(false, 1, false), false);
    s := One(s);
  }

  /** The run: the scheduler acquired ptable.lock with interrupts on, and its release leaves them off. */
  lemma SchedulerFlagLost()
    ensures exists cs ::
      var s := Exec(Scheduler.Boot(), cs);
      && s.run == SCHED && SCHED < |s.threads| && Me(s).pc == PopSti(Schedule(true))
      && var r := Step(s, Go(None)); !r.flag && r.run < |r.threads| && Me(r).pc == Code
  {
    hide Step, Quiet, Exec, Spot;
    var other := Thread(Resume(false, false), Some(Code));
    var s := Preempted();
    hide Reachable;
    ScanGoesOn(s, other, Flags(false, 1, false));
    s := One(s);
    ScanEnds(s, other, Flags(false, 1, false));
    s := Many(s, NPROC);
    Release(s, SCHED, Schedule(true), None, other, Flags(false, 1, false), RUNABLE, Some(0));
    s := Many(s, 2);
    PopsTwo(s, other, Flags(false, 1, false));
    s := Many(s, 2);
    FlagStaysOff(s, other);
    WitnessOf(s);
  }

  lemma FlagStaysOff(s: State, other: Thread)
    requires Spot(s, SCHED, Thread(PopSti(Schedule(true)), None), other, Flags(false, 0, false), false, RUNABLE, Some(0))
    ensures s.run == SCHED && SCHED < |s.threads| && Me(s).pc == PopSti(Schedule(true))
    ensures var r := Step(s, Go(None)); !r.flag && r.run < |r.threads| && Me(r).pc == Code
  {
    hide Body, Switching;
  }

  lemma WitnessOf(s: State)
    requires Reachable(s) && s.run == SCHED && SCHED < |s.threads| && Me(s).pc == PopSti(Schedule(true))
    requires var r := Step(s, Go(None)); !r.flag && r.run < |r.threads| && Me(r).pc == Code
    ensures exists cs ::
      var s := Exec(Scheduler.Boot(), cs);
      && s.run == SCHED && SCHED < |s.threads| && Me(s).pc == PopSti(Schedule(true))
      && var r := Step(s, Go(None)); !r.flag && r.run < |r.threads| && Me(r).pc == Code
  {
    hide Step, Exec;
    var cs :| Exec(Scheduler.Boot(), cs) == s;
  }
}
