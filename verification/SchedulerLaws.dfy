// What holds in every run of the step system: no panic, who holds what when interrupts are on, the
// handover of ptable.lock, the interrupt flag across a switch, and bounded waiting.

module SchedulerLaws {
  import opened Machine
  import opened Scheduler
  import opened SchedulerInv

  lemma {:induction false} EveryRunInv(cs: seq<Choice>)
    ensures Inv(Exec(Scheduler.Boot(), cs))
  {
    hide Inv, Step, Scheduler.Boot;
    if cs == [] {
      BootInv();
    } else {
      EveryRunInv(cs[..|cs| - 1]);
      StepKeeps(Exec(Scheduler.Boot(), cs[..|cs| - 1]), cs[|cs| - 1]);
    }
  }

  /** Main result: no run reaches a panic, so no interrupt ever meets a held lock and no yield ever
      fails a test of goto_scheduler; with interrupts on no lock is held and pushcli is not nested; and
      at most one process is RUNNING, the one curprocess points to. */
  lemma {:induction false} EveryRunIsSafe(cs: seq<Choice>)
    ensures var s := Exec(Scheduler.Boot(), cs);
      && !s.panicked
      && (s.flag ==> s.ncli == 0 && !s.ptable && !s.cons)
      && (forall p :: 0 <= p < |s.procs| && s.procs[p] == RUNNING ==> s.cur == Some(p))
  {
    hide Exec;
    EveryRunInv(cs);
    if Exec(Scheduler.Boot(), cs).flag {
      FlagMeansFree(Exec(Scheduler.Boot(), cs));
    }
  }

  lemma FlagMeansFree(s: State)
    requires Inv(s) && s.flag
    ensures s.ncli == 0 && !s.ptable && !s.cons
  {
    hide Legal, ParkedOk, StatesOk, OwnOk, PidsOk;
  }

  /** Pids of slots in use are distinct and have all been given out. */
  lemma {:induction false} EveryRunPids(cs: seq<Choice>, p: nat, q: nat)
    requires var s := Exec(Scheduler.Boot(), cs);
      p < q < |s.procs| && s.procs[p] != UNUSED && s.procs[q] != UNUSED
    ensures var s := Exec(Scheduler.Boot(), cs);
      p < |s.pids| && q < |s.pids| && s.pids[p] != s.pids[q] && 1 <= s.pids[p] < s.nextpid
  {
    hide Exec;
    EveryRunInv(cs);
  }

  // ---- The handover of ptable.lock ----

  /** At every context switch, in either direction, ptable.lock is held, ncli is 1 and interrupts are off;
      and the thread switched to is about to release the lock or to go on scanning under it. */
  lemma Handover(cs: seq<Choice>)
    ensures var s := Exec(Scheduler.Boot(), cs);
      s.run < |s.threads| && (Me(s).pc.SwitchOut? || Me(s).pc.SwitchTo?) ==>
        && s.ptable && s.ncli == 1 && !s.flag
        && var r := Step(s, Go(None));
           && r.ptable && r.ncli == 1 && !r.flag && r.run < |r.threads| && r.run != s.run
           && (Me(r).pc.Resume? || Me(r).pc == Leave(Fork) || Me(r).pc.Back?)
  {
    hide Exec;
    EveryRunInv(cs);
    var s := Exec(Scheduler.Boot(), cs);
    if Me(s).pc.SwitchOut? || Me(s).pc.SwitchTo? {
      HandoverStep(s);
    }
  }

  lemma HandoverStep(s: State)
    requires Inv(s) && (Me(s).pc.SwitchOut? || Me(s).pc.SwitchTo?)
    ensures s.ptable && s.ncli == 1 && !s.flag
    ensures var r := Step(s, Go(None));
      && r.ptable && r.ncli == 1 && !r.flag && r.run < |r.threads| && r.run != s.run
      && (Me(r).pc.Resume? || Me(r).pc == Leave(Fork) || Me(r).pc.Back?)
  {
    SwitchesSelf(s);
    CpuFacts(s);
    hide StatesOk, OwnOk, PidsOk, ParkedOk;
  }

  /** The history of ptable.lock alternates, starting with an acquire. */
  predicate Alternates(log: seq<LockEvent>) {
    forall k :: 0 <= k < |log| ==> (log[k].Acquired? <==> k % 2 == 0)
  }

  lemma LockStep(s: State, c: Choice)
    requires Inv(s) && Alternates(s.locking) && (s.ptable <==> |s.locking| % 2 == 1)
    ensures var r := Step(s, c); Alternates(r.locking) && (r.ptable <==> |r.locking| % 2 == 1)
  {
    hide Execute, Interrupt, Inv, Alternates;
    UnlockHolds(s);
    if !s.panicked && c.Go? {
      LockExecute(s, c.begin);
      AlternatesOn(s.locking, s.run);
    } else {
      LockInterrupt(s);
    }
  }

  lemma UnlockHolds(s: State)
    requires Inv(s)
    ensures s.run < |s.threads| && (Me(s).pc.Unlock? && LockOf(Me(s).pc.t).Ptable? ==> s.ptable)
  {
    hide StatesOk, OwnOk, PidsOk, ParkedOk, FlagsOk;
  }

  lemma LockInterrupt(s: State)
    requires s.run < |s.threads|
    ensures forall h :: Interrupt(s, h).locking == s.locking && Interrupt(s, h).ptable == s.ptable
  {
  }

  ghost predicate SameLock(s: State, r: State) {
    r.ptable == s.ptable && r.locking == s.locking
  }

  lemma LockFlags(s: State, begin: Option<Task>)
    requires s.run < |s.threads|
    requires var pc := Me(s).pc; pc.Code? || pc.Setup? || pc.Trapret? || pc.TimerTest? || pc.Iret? || pc.ReadFlags? || pc.Cli?
    ensures SameLock(s, Execute(s, begin))
  {
    hide Body, Switching, MayBegin, After;
  }

  lemma LockCounts(s: State, begin: Option<Task>)
    requires s.run < |s.threads|
    requires var pc := Me(s).pc;
      pc.SaveFlag? || pc.Count? || pc.TestHolding? || pc.Leave? || pc.PopTest? || pc.PopCount? || pc.PopSti?
    ensures SameLock(s, Execute(s, begin))
  {
    hide Body, Switching, MayBegin, After;
  }

  lemma LockChanges(s: State, begin: Option<Task>)
    requires s.run < |s.threads| && (Me(s).pc.Xchg? || Me(s).pc.Unlock?)
    ensures var r, pc := Execute(s, begin), Me(s).pc;
      if !LockOf(pc.t).Ptable? || (pc.Xchg? && s.ptable) then SameLock(s, r)
      else if pc.Xchg? then r.ptable && r.locking == s.locking + [Acquired(s.run)]
      else !r.ptable && r.locking == s.locking + [Released(s.run)]
  {
    hide Body, Switching, MayBegin, After;
  }

  lemma LockRest(s: State, begin: Option<Task>)
    requires s.run < |s.threads|
    requires var pc := Me(s).pc;
      pc.Critical? || pc.Checks? || pc.SwitchOut? || pc.Resume? || pc.Scan? || pc.Chosen? || pc.SetRun? || pc.SwitchTo? || pc.Back?
    ensures SameLock(s, Execute(s, begin))
  {
    if Me(s).pc.Critical? {
      LockBody(s, Me(s).pc.t);
    } else {
      LockSwitching(s);
    }
    hide Body, Switching;
  }

  /** A statement other than the exchange and the unlocking store leaves the lock alone. */
  lemma LockExecute(s: State, begin: Option<Task>)
    requires s.run < |s.threads|
    ensures var r, pc := Execute(s, begin), Me(s).pc;
      if pc.Xchg? && LockOf(pc.t).Ptable? && !s.ptable then r.ptable && r.locking == s.locking + [Acquired(s.run)]
      else if pc.Unlock? && LockOf(pc.t).Ptable? then !r.ptable && r.locking == s.locking + [Released(s.run)]
      else SameLock(s, r)
  {
    hide Execute;
    var pc := Me(s).pc;
    if pc.Code? || pc.Setup? || pc.Trapret? || pc.TimerTest? || pc.Iret? || pc.ReadFlags? || pc.Cli? {
      LockFlags(s, begin);
    } else if pc.Xchg? || pc.Unlock? {
      LockChanges(s, begin);
    } else if pc.SaveFlag? || pc.Count? || pc.TestHolding? || pc.Leave? || pc.PopTest? || pc.PopCount? || pc.PopSti? {
      LockCounts(s, begin);
    } else {
      LockRest(s, begin);
    }
  }

  lemma AlternatesOn(l: seq<LockEvent>, who: nat)
    requires Alternates(l)
    ensures |l| % 2 == 0 ==> Alternates(l + [Acquired(who)])
    ensures |l| % 2 == 1 ==> Alternates(l + [Released(who)])
  {
  }

  lemma LockBody(s: State, t: Task)
    requires s.run < |s.threads|
    ensures Body(s, t).locking == s.locking && Body(s, t).ptable == s.ptable
  {
  }

  lemma LockGoto(s: State)
    requires s.run < |s.threads| && (Me(s).pc.Checks? || Me(s).pc.SwitchOut? || Me(s).pc.Resume? || !Switches(Me(s).pc))
    ensures Switching(s).locking == s.locking && Switching(s).ptable == s.ptable
  {
  }

  lemma LockScan(s: State)
    requires s.run < |s.threads|
    requires var pc := Me(s).pc; pc.Scan? || pc.Chosen? || pc.SetRun? || pc.SwitchTo? || pc.Back?
    ensures Switching(s).locking == s.locking && Switching(s).ptable == s.ptable
  {
  }

  lemma LockSwitching(s: State)
    requires s.run < |s.threads|
    ensures Switching(s).locking == s.locking && Switching(s).ptable == s.ptable
  {
    if Me(s).pc.Checks? || Me(s).pc.SwitchOut? || Me(s).pc.Resume? || !Switches(Me(s).pc) {
      LockGoto(s);
    } else {
      LockScan(s);
    }
  }

  /** In every run the acquires and releases of ptable.lock alternate, although the thread that
      acquired it and the one that releases it differ after every switch. */
  lemma {:induction false} EveryRunAlternates(cs: seq<Choice>)
    ensures var s := Exec(Scheduler.Boot(), cs); Alternates(s.locking) && (s.ptable <==> |s.locking| % 2 == 1)
  {
    hide Inv, Step;
    if cs != [] {
      var s := Exec(Scheduler.Boot(), cs[..|cs| - 1]);
      EveryRunAlternates(cs[..|cs| - 1]);
      EveryRunInv(cs[..|cs| - 1]);
      LockStep(s, cs[|cs| - 1]);
    }
  }

  // ---- The interrupt flag across a switch ----

  /** A call of yield_cpu, from timer_handler or from a process's own code, carries the flag at the call. */
  lemma YieldEntry(s: State, begin: Option<Task>)
    requires Inv(s) && (Me(s).pc.Code? || Me(s).pc.TimerTest?)
    requires var r := Step(s, Go(begin)); Me(r).pc.ReadFlags? && Me(r).pc.t.Yield?
    ensures Me(Step(s, Go(begin))).pc.t.entry == s.flag
  {
    hide StatesOk, OwnOk, PidsOk, ParkedOk, FlagsOk, Legal;
  }

  /** When yield_cpu returns, the flag is what it was at the call, whatever ran in between. */
  lemma {:induction false} YieldRestoresFlag(cs: seq<Choice>)
    ensures var s := Exec(Scheduler.Boot(), cs);
      s.run < |s.threads| && Me(s).pc.PopSti? && Me(s).pc.t.Yield? ==>
        Step(s, Go(None)).flag == Me(s).pc.t.entry
  {
    hide Exec;
    EveryRunInv(cs);
    var s := Exec(Scheduler.Boot(), cs);
    if Me(s).pc.PopSti? && Me(s).pc.t.Yield? {
      YieldReturn(s);
    }
  }

  lemma YieldReturn(s: State)
    requires Inv(s) && Me(s).pc.PopSti? && Me(s).pc.t.Yield?
    ensures Step(s, Go(None)).flag == Me(s).pc.t.entry
  {
    hide StatesOk, OwnOk, PidsOk, ParkedOk;
  }

  // ---- The scheduler's own interrupt flag ----

  function EntryOf(pc: Pc): Option<bool> {
    match pc
    case Scan(e, i) => Some(e)
    case Chosen(e, i) => Some(e)
    case SetRun(e, i) => Some(e)
    case SwitchTo(e, i) => Some(e)
    case Back(e, i) => Some(e)
    case _ =>
      match TaskOf(pc)
      case Some(Schedule(e)) => Some(e)
      case Some(Uvm(e, i)) => Some(e)
      case _ => None
  }

  /** Inside the scheduler's critical section intena is the flag the scheduler entered with until a
      process hands the CPU back, and from then on what that process left there. */
  predicate HandedOk(s: State) {
    s.run < |s.threads| &&
    var pc := Me(s).pc;
    s.run == SCHED && Me(s).saved.None? && EntryOf(pc).Some? ==>
      if TaskOf(pc).Some? && TaskOf(pc).value.Schedule? && Entering(pc) then
        if pc.ReadFlags? || pc.Cli? then s.flag == EntryOf(pc).value
        else if pc.SaveFlag? then pc.eflags == EntryOf(pc).value
        else s.intena == EntryOf(pc).value
      else s.intena == (if s.handed.Some? then s.handed.value else EntryOf(pc).value)
  }

  /** Interrupted on the way into its critical section, the scheduler had interrupts on. */
  predicate SchedulerSavedOk(s: State) {
    SCHED < |s.threads| &&
    var saved := s.threads[SCHED].saved;
    saved.Some? && TaskOf(saved.value).Some? && TaskOf(saved.value).value.Schedule? ==> TaskOf(saved.value).value.entry
  }

  lemma HandedProcess(s: State, begin: Option<Task>)
    requires Inv(s) && SchedulerSavedOk(s) && s.run < NPROC
    ensures HandedOk(Execute(s, begin)) && SchedulerSavedOk(Execute(s, begin))
  {
    ProcessAt(s);
    hide StatesOk, OwnOk, PidsOk, CpuOk;
    if Me(s).pc.SwitchOut? {
      SwitchesSelf(s);
    } else {
      hide Execute;
      OwnStack(s, begin);
    }
  }

  lemma HandedCode(s: State, begin: Option<Task>)
    requires Shape(s) && CpuOk(s) && HandedOk(s) && SchedulerSavedOk(s) && s.run == SCHED
    requires Me(s).pc.Code? || Me(s).pc.Setup? || Me(s).pc.TimerTest? || Me(s).pc.Iret?
    ensures HandedOk(Execute(s, begin)) && SchedulerSavedOk(Execute(s, begin))
  {
    hide HoldsPtable, HoldsCons, Body, Switching;
  }

  lemma HandedFlags(s: State, begin: Option<Task>)
    requires Shape(s) && CpuOk(s) && HandedOk(s) && SchedulerSavedOk(s) && s.run == SCHED
    requires Me(s).pc.ReadFlags? || Me(s).pc.Cli?
    ensures HandedOk(Execute(s, begin)) && SchedulerSavedOk(Execute(s, begin))
  {
    hide HoldsPtable, HoldsCons, Body, Switching;
  }

  lemma HandedCount(s: State, begin: Option<Task>)
    requires Shape(s) && CpuOk(s) && HandedOk(s) && SchedulerSavedOk(s) && s.run == SCHED
    requires Me(s).pc.SaveFlag? || Me(s).pc.Count?
    ensures HandedOk(Execute(s, begin)) && SchedulerSavedOk(Execute(s, begin))
  {
    hide HoldsPtable, HoldsCons, Body, Switching;
  }

  lemma HandedAcquire(s: State, begin: Option<Task>)
    requires Shape(s) && CpuOk(s) && HandedOk(s) && SchedulerSavedOk(s) && s.run == SCHED
    requires Me(s).pc.TestHolding? || Me(s).pc.Xchg?
    ensures HandedOk(Execute(s, begin)) && SchedulerSavedOk(Execute(s, begin))
  {
    hide HoldsPtable, HoldsCons, Body, Switching;
  }

  lemma HandedBody(s: State, begin: Option<Task>)
    requires Shape(s) && CpuOk(s) && HandedOk(s) && SchedulerSavedOk(s) && s.run == SCHED
    requires Me(s).pc.Critical? && !Me(s).pc.t.Schedule?
    ensures HandedOk(Execute(s, begin)) && SchedulerSavedOk(Execute(s, begin))
  {
    RunsBody(s, begin);
    hide Execute, Switching;
    hide FlagsOk, HoldsPtable, HoldsCons, Switching, Depth, SavedOk;
  }

  lemma HandedSchedule(s: State, begin: Option<Task>)
    requires Shape(s) && CpuOk(s) && HandedOk(s) && SchedulerSavedOk(s) && s.run == SCHED
    requires Me(s).pc.Critical? && Me(s).pc.t.Schedule?
    ensures HandedOk(Execute(s, begin)) && SchedulerSavedOk(Execute(s, begin))
  {
    RunsBody(s, begin);
    hide Execute, Switching;
    hide FlagsOk, HoldsPtable, HoldsCons, Switching, Depth, SavedOk;
  }

  lemma HandedRelease(s: State, begin: Option<Task>)
    requires Shape(s) && CpuOk(s) && HandedOk(s) && SchedulerSavedOk(s) && s.run == SCHED
    requires Me(s).pc.Leave? || Me(s).pc.Unlock?
    ensures HandedOk(Execute(s, begin)) && SchedulerSavedOk(Execute(s, begin))
  {
    ReleaseStep(s, begin);
    hide Execute, FlagsOk, HoldsPtable, HoldsCons, Depth, SavedOk, Legal;
  }

  lemma ReleaseStep(s: State, begin: Option<Task>)
    requires s.run < |s.threads| && (Me(s).pc.Leave? || Me(s).pc.Unlock?)
    ensures var r, t := Execute(s, begin), Me(s).pc.t;
      && r.run == s.run && |r.threads| == |s.threads| && r.flag == s.flag && r.intena == s.intena && r.handed == s.handed
      && (r.panicked || Me(r) == Thread(if Me(s).pc.Leave? then Unlock(t) else PopTest(t), Me(s).saved))
      && (r.panicked ==> s.panicked || (Me(s).pc.Leave? && !Held(s, LockOf(t))))
  {
    hide Body, Switching;
  }

  lemma HandedPop(s: State, begin: Option<Task>)
    requires Shape(s) && CpuOk(s) && HandedOk(s) && SchedulerSavedOk(s) && s.run == SCHED
    requires Me(s).pc.PopTest? || Me(s).pc.PopCount?
    ensures HandedOk(Execute(s, begin)) && SchedulerSavedOk(Execute(s, begin))
  {
    hide FlagsOk, HoldsPtable, HoldsCons, Body, Switching, Depth, SavedOk, Legal;
  }

  lemma HandedSti(s: State, begin: Option<Task>)
    requires Shape(s) && CpuOk(s) && HandedOk(s) && SchedulerSavedOk(s) && s.run == SCHED
    requires Me(s).pc.PopSti?
    ensures HandedOk(Execute(s, begin)) && SchedulerSavedOk(Execute(s, begin))
  {
    hide FlagsOk, HoldsPtable, HoldsCons, Body, Switching, Depth;
  }

  lemma HandedScan(s: State, begin: Option<Task>)
    requires Shape(s) && CpuOk(s) && HandedOk(s) && SchedulerSavedOk(s) && s.run == SCHED
    requires Me(s).pc.Scan?
    ensures HandedOk(Execute(s, begin)) && SchedulerSavedOk(Execute(s, begin))
  {
    RunsSwitching(s, begin);
    hide Execute, Body;
    assert Me(s).saved.None? by {
      hide HoldsPtable, HoldsCons, HandedOk, SchedulerSavedOk;
    }
    hide CpuOk, Execute;
    ScanStep(s, begin);
  }

  lemma ScanStep(s: State, begin: Option<Task>)
    requires s.run < |s.threads| && Me(s).pc.Scan?
    ensures var e, i := Me(s).pc.entry, Me(s).pc.i;
      Execute(s, begin) ==
        Goto(s, if i >= NPROC || i >= |s.procs| then Leave(Schedule(e)) else if s.procs[i] != RUNABLE then Scan(e, i + 1) else Chosen(e, i))
  {
    RunsSwitching(s, begin);
    hide Execute, Body;
  }

  lemma HandedBack(s: State, begin: Option<Task>)
    requires Shape(s) && CpuOk(s) && HandedOk(s) && SchedulerSavedOk(s) && s.run == SCHED
    requires Me(s).pc.Back?
    ensures HandedOk(Execute(s, begin)) && SchedulerSavedOk(Execute(s, begin))
  {
    RunsSwitching(s, begin);
    hide Execute, Body;
    hide FlagsOk, HoldsPtable, HoldsCons, Body, Depth, SavedOk;
  }

  lemma HandedChosen(s: State, begin: Option<Task>)
    requires Shape(s) && CpuOk(s) && HandedOk(s) && SchedulerSavedOk(s) && s.run == SCHED
    requires Me(s).pc.Chosen? || Me(s).pc.SetRun? || Me(s).pc.SwitchTo?
    ensures HandedOk(Execute(s, begin)) && SchedulerSavedOk(Execute(s, begin))
  {
    RunsSwitching(s, begin);
    hide Execute, Body;
    hide FlagsOk, HoldsPtable, HoldsCons, Body, Depth;
  }

  lemma HandedExecute(s: State, begin: Option<Task>)
    requires Inv(s) && HandedOk(s) && SchedulerSavedOk(s)
    ensures HandedOk(Execute(s, begin)) && SchedulerSavedOk(Execute(s, begin))
  {
    if s.run == SCHED {
      SchedulerAt(s);
    }
    hide Execute, HandedOk, SchedulerSavedOk, CpuOk, StatesOk, OwnOk, PidsOk, ParkedOk;
    var pc := Me(s).pc;
    if s.run < NPROC {
      HandedProcess(s, begin);
    } else if pc.Code? || pc.Setup? || pc.TimerTest? || pc.Iret? {
      HandedCode(s, begin);
    } else if pc.ReadFlags? || pc.Cli? {
      HandedFlags(s, begin);
    } else if pc.SaveFlag? || pc.Count? {
      HandedCount(s, begin);
    } else if pc.TestHolding? || pc.Xchg? {
      HandedAcquire(s, begin);
    } else if pc.Critical? && pc.t.Schedule? {
      HandedSchedule(s, begin);
    } else if pc.Critical? {
      HandedBody(s, begin);
    } else if pc.Leave? || pc.Unlock? {
      HandedRelease(s, begin);
    } else if pc.PopTest? || pc.PopCount? {
      HandedPop(s, begin);
    } else if pc.PopSti? {
      HandedSti(s, begin);
    } else if pc.Scan? {
      HandedScan(s, begin);
    } else if pc.Back? {
      HandedBack(s, begin);
    } else {
      HandedChosen(s, begin);
    }
  }

  lemma ProcessAt(s: State)
    requires Inv(s) && s.run < NPROC
    ensures !Me(s).pc.SwitchTo?
  {
    hide StatesOk, OwnOk, PidsOk, ParkedOk, FlagsOk;
  }

  /** The scheduler's thread never yields, forks or returns to user mode. */
  lemma SchedulerAt(s: State)
    requires Inv(s) && s.run == SCHED
    ensures !Me(s).pc.Trapret? && !Me(s).pc.Checks? && !Me(s).pc.SwitchOut? && !Me(s).pc.Resume?
  {
    hide StatesOk, OwnOk, PidsOk, ParkedOk, FlagsOk;
  }

  lemma HandedInterrupt(s: State, handler: Pc)
    requires Inv(s) && HandedOk(s) && SchedulerSavedOk(s) && (handler == TimerTest || handler == ReadFlags(Console))
    ensures HandedOk(Interrupt(s, handler)) && SchedulerSavedOk(Interrupt(s, handler))
  {
    hide StatesOk, OwnOk, PidsOk, ParkedOk;
  }

  lemma {:induction false} EveryRunHanded(cs: seq<Choice>)
    ensures var s := Exec(Scheduler.Boot(), cs); Inv(s) && HandedOk(s) && SchedulerSavedOk(s)
  {
    if cs == [] {
      BootInv();
    } else {
      hide Inv, Execute, Interrupt, HandedOk, SchedulerSavedOk;
      var s := Exec(Scheduler.Boot(), cs[..|cs| - 1]);
      EveryRunHanded(cs[..|cs| - 1]);
      StepKeeps(s, cs[|cs| - 1]);
      NotPanicked(s);
      match cs[|cs| - 1]
      case Go(begin) => HandedExecute(s, begin);
      case TimerIrq => HandedInterrupt(s, TimerTest);
      case KeyIrq => HandedInterrupt(s, ReadFlags(Console));
    }
  }

  lemma NotPanicked(s: State)
    requires Inv(s)
    ensures !s.panicked && s.run < |s.threads|
  {
  }

  /** Whether the last process to switch out since the scheduler's last acquire did so inside an interrupt
      handler; None if none has. */
  function LastOut(cs: seq<Choice>): Option<bool> {
    if cs == [] then None
    else Out(Exec(Scheduler.Boot(), cs[..|cs| - 1]), cs[|cs| - 1], LastOut(cs[..|cs| - 1]))
  }

  function Out(s: State, c: Choice, last: Option<bool>): Option<bool> {
    if s.panicked || s.run >= |s.threads| || !c.Go? then last
    else if Me(s).pc.Critical? && Me(s).pc.t.Schedule? then None
    else if Me(s).pc.SwitchOut? then Some(Me(s).saved.Some?)
    else last
  }

  predicate Mirrors(handed: Option<bool>, last: Option<bool>) {
    if last.None? then handed.None? else handed == Some(!last.value)
  }

  lemma HandedBefore(s: State, begin: Option<Task>)
    requires s.run < |s.threads|
    requires var pc := Me(s).pc; pc.Code? || pc.Setup? || pc.Trapret? || pc.TimerTest? || pc.Iret? || pc.ReadFlags? || pc.Cli?
    ensures Execute(s, begin).handed == s.handed
  {
    hide Body, Switching, MayBegin, After;
  }

  lemma HandedAround(s: State, begin: Option<Task>)
    requires s.run < |s.threads|
    requires var pc := Me(s).pc;
      pc.SaveFlag? || pc.Count? || pc.TestHolding? || pc.Leave? || pc.PopTest? || pc.PopCount? || pc.PopSti? || pc.Xchg? || pc.Unlock?
    ensures Execute(s, begin).handed == s.handed
  {
    hide Body, Switching, MayBegin, After;
  }

  lemma HandedCritical(s: State, begin: Option<Task>)
    requires s.run < |s.threads| && Me(s).pc.Critical?
    ensures Execute(s, begin).handed == if Me(s).pc.t.Schedule? then None else s.handed
  {
    RunsBody(s, begin);
    hide Execute, Switching;
    hide Switching, MayBegin, After;
  }

  lemma HandedRest(s: State, begin: Option<Task>)
    requires s.run < |s.threads|
    requires var pc := Me(s).pc; pc.Checks? || pc.Resume? || pc.Scan? || pc.Chosen? || pc.SetRun? || pc.SwitchTo? || pc.Back?
    ensures Execute(s, begin).handed == s.handed
  {
    RunsSwitching(s, begin);
    hide Execute, Body;
    hide Body, MayBegin, After;
  }

  lemma OutStep(s: State, c: Choice, last: Option<bool>)
    requires Inv(s) && Mirrors(s.handed, last)
    ensures Mirrors(Step(s, c).handed, Out(s, c, last))
  {
    NotPanicked(s);
    hide Execute, Interrupt, Inv;
    if c.Go? {
      var pc := Me(s).pc;
      if pc.Code? || pc.Setup? || pc.Trapret? || pc.TimerTest? || pc.Iret? || pc.ReadFlags? || pc.Cli? {
        HandedBefore(s, c.begin);
      } else if pc.Critical? {
        HandedCritical(s, c.begin);
      } else if pc.SwitchOut? {
        OutSwitch(s, c.begin);
      } else if pc.Checks? || pc.Resume? || pc.Scan? || pc.Chosen? || pc.SetRun? || pc.SwitchTo? || pc.Back? {
        HandedRest(s, c.begin);
      } else {
        HandedAround(s, c.begin);
      }
    } else {
      OutInterrupt(s);
    }
  }

  lemma OutInterrupt(s: State)
    requires s.run < |s.threads|
    ensures forall h :: Interrupt(s, h).handed == s.handed
  {
  }

  lemma OutSwitch(s: State, begin: Option<Task>)
    requires Inv(s) && Me(s).pc.SwitchOut?
    ensures Execute(s, begin).handed == Some(!Me(s).saved.Some?)
  {
    RunsSwitching(s, begin);
    hide Execute, Body;
    HandsOver(s);
    hide Inv;
    assert Execute(s, begin) == Execute(s, None);
  }

  lemma {:induction false} EveryRunMirrors(cs: seq<Choice>)
    ensures Mirrors(Exec(Scheduler.Boot(), cs).handed, LastOut(cs))
  {
    hide Inv, Step, Out;
    if cs != [] {
      EveryRunInv(cs[..|cs| - 1]);
      EveryRunMirrors(cs[..|cs| - 1]);
      OutStep(Exec(Scheduler.Boot(), cs[..|cs| - 1]), cs[|cs| - 1], LastOut(cs[..|cs| - 1]));
    }
  }

  /** What the scheduler's release does to its interrupt flag, exactly. The flag is again what it was at the
      scheduler's acquire if and only if no process has switched out in between, or the last to do so was
      inside an interrupt handler exactly when the flag was off: scheduler() saves no intena. */
  lemma SchedulerFlagExactly(cs: seq<Choice>)
    ensures var s := Exec(Scheduler.Boot(), cs);
      s.run < |s.threads| && Me(s).pc.PopSti? && Me(s).pc.t.Schedule? ==>
        (Step(s, Go(None)).flag == Me(s).pc.t.entry <==>
           LastOut(cs).None? || (LastOut(cs).value <==> !Me(s).pc.t.entry))
  {
    hide Exec, LastOut;
    EveryRunHanded(cs);
    EveryRunMirrors(cs);
    var s := Exec(Scheduler.Boot(), cs);
    if Me(s).pc.PopSti? && Me(s).pc.t.Schedule? {
      SchedulerReturn(s);
      hide Inv, Step;
    }
  }

  lemma SchedulerReturn(s: State)
    requires Inv(s) && HandedOk(s) && Me(s).pc.PopSti? && Me(s).pc.t.Schedule?
    ensures Step(s, Go(None)).flag == if s.handed.Some? then s.handed.value else Me(s).pc.t.entry
  {
    hide StatesOk, OwnOk, PidsOk, ParkedOk;
  }

  /** A process preempted by the timer hands the scheduler a masked flag, whatever the scheduler entered with. */
  lemma TimerHandsOverMaskedFlag(cs: seq<Choice>)
    ensures var s := Exec(Scheduler.Boot(), cs);
      s.run < |s.threads| && Me(s).pc.SwitchOut? ==>
        Step(s, Go(None)).handed == Some(!Me(s).saved.Some?)
  {
    hide Exec;
    EveryRunInv(cs);
    var s := Exec(Scheduler.Boot(), cs);
    if Me(s).pc.SwitchOut? {
      HandsOver(s);
    }
  }

  lemma HandsOver(s: State)
    requires Inv(s) && Me(s).pc.SwitchOut?
    ensures Step(s, Go(None)).handed == Some(!Me(s).saved.Some?)
  {
    SwitchesSelf(s);
    hide StatesOk, OwnOk, PidsOk, ParkedOk;
  }

  // ---- Bounded waiting ----

  /** How far x lies after i in the order in which the scheduler tests processes, counting from 0. */
  function Ahead(i: int, x: int): int {
    (x - i - 1) % NPROC
  }

  /** What a step may do to the table and to the scan: at most one dispatch, of the RUNABLE process the
      scan is at; the scan moves past a process only if it is not RUNABLE. */
  ghost predicate FairStep(s: State, r: State)
    requires |s.threads| > SCHED && |r.threads| > SCHED && |s.procs| == |r.procs| == NPROC
  {
    var p, q := Position(s.threads[SCHED]), Position(r.threads[SCHED]);
    && 0 <= p < NPROC && 0 <= q < NPROC
    && ((r.dispatches == s.dispatches && q == p
         && (forall j :: 0 <= j < NPROC && s.procs[j] == RUNABLE ==> r.procs[j] == RUNABLE))
        || (r.dispatches == s.dispatches && q == (p + 1) % NPROC && s.procs[p] != RUNABLE && r.procs == s.procs)
        || (r.dispatches == s.dispatches + [p] && q == (p + 1) % NPROC
            && (forall j :: 0 <= j < NPROC && j != p && s.procs[j] == RUNABLE ==> r.procs[j] == RUNABLE)))
  }

  lemma PositionRange(th: Thread)
    requires Parked(SCHED, th) || (Legal(SCHED, th.saved.Some?, th.pc) && SavedOk(SCHED, th.saved))
    ensures 0 <= Position(th) < NPROC
  {
  }

  lemma SchedulerPosition(s: State)
    requires Inv(s)
    ensures 0 <= Position(s.threads[SCHED]) < NPROC
  {
    hide FlagsOk, Depth, HoldsPtable, HoldsCons, StatesOk, OwnOk, PidsOk, Position, Parked, Legal, SavedOk;
    assert s.run == SCHED || Parked(SCHED, s.threads[SCHED]);
    PositionRange(s.threads[SCHED]);
  }

  lemma FairQuiet(s: State, r: State)
    requires Inv(s) && Quiet(s, r) && |r.threads| > SCHED && !Me(s).pc.Scan?
    ensures FairStep(s, r)
  {
    hide Position, CpuOk, StatesOk, OwnOk, PidsOk, ParkedOk, Owned, Dispatching;
    SchedulerPosition(s);
  }

  lemma FairBody(s: State, begin: Option<Task>)
    requires Inv(s) && Me(s).pc.Critical?
    ensures FairStep(s, Execute(s, begin))
  {
    RunsBody(s, begin);
    hide Execute, Switching;
    var r := Execute(s, begin);
    SchedulerPosition(s);
    CpuFacts(s);
    hide Execute, CpuOk, StatesOk, OwnOk, PidsOk, ParkedOk, Quiet;
    if Me(s).pc.t.Allocate? {
      AllocateTakes(s, begin);
      if FirstUnused(s.procs) < NPROC {
        FairTook(s, r, FirstUnused(s.procs));
      } else {
        FairQuiet(s, r);
      }
    } else if Me(s).pc.t.Publish? || Me(s).pc.t.Yield? {
      FairPublish(s, begin);
    } else {
      QuietCritical(s, begin);
      FairQuiet(s, r);
    }
  }

  lemma FairTook(s: State, r: State, p: nat)
    requires Inv(s) && Took(s, r, p) && |r.threads| > SCHED && r.dispatches == s.dispatches
    ensures FairStep(s, r)
  {
    hide CpuOk, StatesOk, OwnOk, PidsOk, ParkedOk;
    SchedulerPosition(s);
    assert Position(Me(s)) == 0 && Position(Me(r)) == 0;
    hide Position;
  }

  lemma FairPublish(s: State, begin: Option<Task>)
    requires Shape(s) && Me(s).pc.Critical? && (Me(s).pc.t.Publish? || Me(s).pc.t.Yield?)
    requires Legal(s.run, Me(s).saved.Some?, Me(s).pc)
    requires 0 <= Position(s.threads[SCHED]) < NPROC
    requires Me(s).pc.t.Yield? ==> s.cur == Some(s.run) && s.run < NPROC
    ensures FairStep(s, Execute(s, begin))
  {
    RunsBody(s, begin);
    hide Execute, Switching;
  }

  lemma FairScan(s: State, begin: Option<Task>)
    requires Inv(s) && Me(s).pc.Scan?
    ensures FairStep(s, Execute(s, begin))
  {
    ScanStep(s, begin);
    SchedulerPosition(s);
    hide Execute, StatesOk, OwnOk, PidsOk, ParkedOk, FlagsOk, Depth, HoldsCons, HoldsPtable;
  }

  lemma FairChosen(s: State, begin: Option<Task>)
    requires Inv(s) && (Me(s).pc.Chosen? || Me(s).pc.SetRun?)
    ensures FairStep(s, Execute(s, begin))
  {
    RunsSwitching(s, begin);
    hide Execute, Body;
    SchedulerPosition(s);
    hide StatesOk, OwnOk, PidsOk, ParkedOk, FlagsOk, Depth, HoldsCons, HoldsPtable;
  }

  lemma FairSwitch(s: State, begin: Option<Task>)
    requires Inv(s) && (Me(s).pc.SwitchOut? || Me(s).pc.SwitchTo?)
    ensures FairStep(s, Execute(s, begin))
  {
    RunsSwitching(s, begin);
    hide Execute, Body;
    SchedulerPosition(s);
    SwitchesSelf(s);
    hide StatesOk, OwnOk, PidsOk, ParkedOk, FlagsOk, Depth, HoldsCons, HoldsPtable;
  }

  lemma EveryStepFair(s: State, c: Choice)
    requires Inv(s)
    ensures |Step(s, c).threads| > SCHED && |Step(s, c).procs| == NPROC && FairStep(s, Step(s, c))
  {
    StepKeeps(s, c);
    hide Execute, Interrupt, CpuOk, StatesOk, OwnOk, PidsOk, ParkedOk, Quiet, FairStep;
    var pc := Me(s).pc;
    match c
    case Go(begin) =>
      if pc.Critical? {
        FairBody(s, begin);
      } else if pc.Scan? {
        FairScan(s, begin);
      } else if pc.Chosen? || pc.SetRun? {
        FairChosen(s, begin);
      } else if pc.SwitchOut? || pc.SwitchTo? {
        FairSwitch(s, begin);
      } else {
        if pc.Checks? || pc.Resume? {
          QuietChecks(s, begin);
        } else if pc.Back? {
          QuietBack(s, begin);
        } else {
          QuietStep(s, begin);
        }
        FairQuiet(s, Execute(s, begin));
      }
    case TimerIrq =>
      InterruptFair(s, TimerTest);
    case KeyIrq =>
      InterruptFair(s, ReadFlags(Console));
  }

  lemma InterruptFair(s: State, handler: Pc)
    requires Inv(s) && (handler == TimerTest || handler == ReadFlags(Console))
    ensures |Interrupt(s, handler).threads| > SCHED && |Interrupt(s, handler).procs| == NPROC
    ensures FairStep(s, Interrupt(s, handler))
  {
    SchedulerPosition(s);
    hide StatesOk, OwnOk, PidsOk, ParkedOk, Legal;
  }

  /** j has been waiting, RUNABLE, since process i was dispatched with `base` dispatches made in all. */
  ghost predicate Waiting(i: nat, j: nat, base: nat, s: State)
  {
    && i < NPROC && j < NPROC && i != j
    && |s.threads| > SCHED && |s.procs| == NPROC && base <= |s.dispatches|
    && s.procs[j] == RUNABLE
    && var p := Position(s.threads[SCHED]);
       && 0 <= p < NPROC
       && Ahead(i, p) <= Ahead(i, j)
       && |s.dispatches| - base <= Ahead(i, p)
       && forall k :: base <= k < |s.dispatches| ==> s.dispatches[k] < NPROC && Ahead(i, s.dispatches[k]) < Ahead(i, p)
  }

  lemma AheadStep(i: nat, j: nat, p: nat)
    requires i < NPROC && j < NPROC && p < NPROC && i != j && Ahead(i, p) <= Ahead(i, j)
    ensures p != j ==> Ahead(i, (p + 1) % NPROC) == Ahead(i, p) + 1 <= Ahead(i, j)
    ensures Ahead(i, j) <= NPROC - 2 && Ahead(i, i) == NPROC - 1
    ensures Ahead(i, p) == Ahead(i, j) ==> p == j
  {
    AheadIs(i, j);
    AheadIs(i, i);
    AheadIs(i, p);
    var q := if p == NPROC - 1 then 0 else p + 1;
    NextProcess(p);
    AheadIs(i, q);
    hide Ahead;
  }

  /** Counting without the remainder. */
  lemma AheadIs(i: int, x: int)
    requires 0 <= i < NPROC && 0 <= x < NPROC
    ensures Ahead(i, x) == if x > i then x - i - 1 else x - i - 1 + NPROC
  {
    var d := x - i - 1;
    if d < 0 {
      assert d == -1 * NPROC + (d + NPROC);
    }
  }

  lemma NextProcess(p: int)
    requires 0 <= p < NPROC
    ensures (p + 1) % NPROC == if p == NPROC - 1 then 0 else p + 1
  {
  }

  lemma WaitStep(i: nat, j: nat, base: nat, s: State, r: State)
    requires Waiting(i, j, base, s) && |r.threads| > SCHED && |r.procs| == NPROC && FairStep(s, r)
    ensures Waiting(i, j, base, r) || r.dispatches == s.dispatches + [j]
  {
    hide Position, Ahead;
    AheadStep(i, j, Position(s.threads[SCHED]));
  }

  /** The dispatches in d before the first one of j: at most NPROC - 2 of them, none of i. */
  ghost predicate FairLog(i: nat, j: nat, d: seq<nat>) {
    exists n :: 0 <= n <= |d| && n <= NPROC - 2 && i !in d[..n] && j !in d[..n] && (n == |d| || d[n] == j)
  }

  lemma WaitingFair(i: nat, j: nat, base: nat, s: State)
    requires Waiting(i, j, base, s)
    ensures FairLog(i, j, s.dispatches[base..])
  {
    hide Position;
    var p := Position(s.threads[SCHED]);
    var d := s.dispatches[base..];
    AheadStep(i, j, p);
    forall k | 0 <= k < |d|
      ensures d[k] != i && d[k] != j
    {
      assert d[k] == s.dispatches[base + k];
    }
    assert d[..|d|] == d;
  }

  lemma FairLogGrows(i: nat, j: nat, d: seq<nat>, x: nat)
    requires FairLog(i, j, d) && (j in d || x == j)
    ensures FairLog(i, j, d + [x])
  {
    var n :| 0 <= n <= |d| && n <= NPROC - 2 && i !in d[..n] && j !in d[..n] && (n == |d| || d[n] == j);
    if n == |d| {
      assert d[..n] == d;
    }
    assert (d + [x])[..n] == d[..n];
  }

  /** A run continued from a state where i has just been dispatched while j was RUNABLE: whatever happens,
      in the dispatches that follow j comes before i comes again, and after at most NPROC - 2 others. */
  lemma {:induction false} BoundedWaiting(s: State, i: nat, j: nat, cs: seq<Choice>)
    requires Inv(s) && Waiting(i, j, |s.dispatches|, s)
    ensures var r := Exec(s, cs);
      && Inv(r)
      && |s.dispatches| <= |r.dispatches|
      && (Waiting(i, j, |s.dispatches|, r) || j in r.dispatches[|s.dispatches|..])
      && FairLog(i, j, r.dispatches[|s.dispatches|..])
    decreases |cs|
  {
    hide Inv, Step, Waiting, FairLog;
    var base := |s.dispatches|;
    if cs == [] {
      WaitingFair(i, j, base, s);
    } else {
      var q := Exec(s, cs[..|cs| - 1]);
      BoundedWaiting(s, i, j, cs[..|cs| - 1]);
      StepKeeps(q, cs[|cs| - 1]);
      InvShape(q);
      EveryStepFair(q, cs[|cs| - 1]);
      WaitExtends(i, j, base, q, Step(q, cs[|cs| - 1]));
    }
  }

  lemma InvShape(s: State)
    requires Inv(s)
    ensures |s.threads| > SCHED && |s.procs| == NPROC
  {
  }

  lemma WaitExtends(i: nat, j: nat, base: nat, q: State, r: State)
    requires |q.threads| > SCHED && |q.procs| == NPROC && |r.threads| > SCHED && |r.procs| == NPROC && FairStep(q, r)
    requires base <= |q.dispatches| && FairLog(i, j, q.dispatches[base..])
    requires Waiting(i, j, base, q) || j in q.dispatches[base..]
    ensures base <= |r.dispatches| && FairLog(i, j, r.dispatches[base..])
    ensures Waiting(i, j, base, r) || j in r.dispatches[base..]
  {
    hide Waiting, FairLog, Position;
    var d := q.dispatches[base..];
    assert forall x: nat :: (q.dispatches + [x])[base..] == d + [x];
    if j in d {
      if r.dispatches != q.dispatches {
        FairLogGrows(i, j, d, r.dispatches[|q.dispatches|]);
      }
    } else {
      WaitStep(i, j, base, q, r);
      if Waiting(i, j, base, r) {
        BaseWithin(i, j, base, r);
        WaitingFair(i, j, base, r);
      } else {
        FairLogGrows(i, j, d, j);
      }
    }
  }

  lemma BaseWithin(i: nat, j: nat, base: nat, s: State)
    requires Waiting(i, j, base, s)
    ensures base <= |s.dispatches|
  {
  }

  /** Dispatching i while j is RUNABLE starts j's wait. */
  lemma DispatchStartsWait(s: State, begin: Option<Task>, j: nat)
    requires Inv(s) && Me(s).pc.SetRun? && j < NPROC && j != Me(s).pc.i && s.procs[j] == RUNABLE
    ensures var r := Step(s, Go(begin));
      && r.dispatches == s.dispatches + [Me(s).pc.i]
      && Waiting(Me(s).pc.i, j, |r.dispatches|, r)
  {
    hide StatesOk, OwnOk, PidsOk, ParkedOk, FlagsOk, Depth, HoldsCons, HoldsPtable;
  }

  /** Main result, round robin: in every run, once i is dispatched while j is RUNABLE, j is dispatched
      before i is again, and after at most NPROC - 2 other dispatches. */
  lemma {:induction false} RoundRobin(before: seq<Choice>, begin: Option<Task>, cs: seq<Choice>, j: nat)
    requires var s := Exec(Scheduler.Boot(), before);
      && s.run < |s.threads| && Me(s).pc.SetRun? && j < |s.procs| && j < NPROC && s.procs[j] == RUNABLE && j != Me(s).pc.i
    ensures var s := Exec(Scheduler.Boot(), before);
      var d := Exec(Step(s, Go(begin)), cs).dispatches;
      && |s.dispatches| < |d| && d[|s.dispatches|] == Me(s).pc.i
      && FairLog(Me(s).pc.i, j, d[|s.dispatches| + 1..])
  {
    hide Exec, Step, Inv, Waiting, FairLog;
    var s := Exec(Scheduler.Boot(), before);
    EveryRunInv(before);
    DispatchStartsWait(s, begin, j);
    StepKeeps(s, Go(begin));
    BoundedWaiting(Step(s, Go(begin)), Me(s).pc.i, j, cs);
    LogKept(Step(s, Go(begin)), cs);
  }

  /** The history of dispatches only grows. */
  lemma {:induction false} LogKept(s: State, cs: seq<Choice>)
    requires Inv(s)
    ensures Inv(Exec(s, cs)) && s.dispatches <= Exec(s, cs).dispatches
    decreases |cs|
  {
    hide Inv, Step;
    if cs != [] {
      var q := Exec(s, cs[..|cs| - 1]);
      LogKept(s, cs[..|cs| - 1]);
      StepKeeps(q, cs[|cs| - 1]);
      InvShape(q);
      EveryStepFair(q, cs[|cs| - 1]);
    }
  }
}
