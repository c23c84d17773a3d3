// The invariant of the step system in module Scheduler, and that every step keeps it.

module SchedulerInv {
  import opened Machine
  import opened Scheduler

  // ---- What each statement expects of the CPU ----

  /** Statements that may run with interrupts on. */
  predicate Open(pc: Pc) {
    match pc
    case Code => true
    case Setup(p) => true
    case Trapret => true
    case ReadFlags(t) => !t.Uvm?
    case Cli(t, e) => !t.Uvm?
    case _ => false
  }

  function Depth(pc: Pc): int {
    match pc
    case Code => 0
    case Setup(p) => 0
    case Trapret => 0
    case TimerTest => 0
    case Iret => 0
    case ReadFlags(t) => if t.Uvm? then 1 else 0
    case Cli(t, e) => if t.Uvm? then 1 else 0
    case SaveFlag(t, e) => if t.Uvm? then 1 else 0
    case Count(t) => if t.Uvm? then 1 else 0
    case PopTest(t) => if t.Uvm? then 2 else 1
    case PopCount(t) => if t.Uvm? then 2 else 1
    case PopSti(t) => if t.Uvm? then 1 else 0
    case _ => 1
  }

  predicate HoldsPtable(pc: Pc) {
    match pc
    case Code => false
    case Setup(p) => false
    case Trapret => false
    case TimerTest => false
    case Iret => false
    case ReadFlags(t) => t.Uvm?
    case Cli(t, e) => t.Uvm?
    case SaveFlag(t, e) => t.Uvm?
    case Count(t) => t.Uvm?
    case TestHolding(t) => false
    case Xchg(t) => false
    case Critical(t) => !t.Console?
    case Leave(t) => !t.Console?
    case Unlock(t) => !t.Console?
    case PopTest(t) => t.Uvm?
    case PopCount(t) => t.Uvm?
    case PopSti(t) => t.Uvm?
    case _ => true
  }

  predicate HoldsCons(pc: Pc) {
    match pc
    case Critical(t) => t.Console?
    case Leave(t) => t.Console?
    case Unlock(t) => t.Console?
    case _ => false
  }

  function TaskOf(pc: Pc): Option<Task> {
    match pc
    case ReadFlags(t) => Some(t)
    case Cli(t, e) => Some(t)
    case SaveFlag(t, e) => Some(t)
    case Count(t) => Some(t)
    case TestHolding(t) => Some(t)
    case Xchg(t) => Some(t)
    case Critical(t) => Some(t)
    case Leave(t) => Some(t)
    case Unlock(t) => Some(t)
    case PopTest(t) => Some(t)
    case PopCount(t) => Some(t)
    case PopSti(t) => Some(t)
    case _ => None
  }

  /** A flag value that belongs to this context: off in a handler, on in a process's own code. */
  predicate Right(run: nat, inHandler: bool, b: bool) {
    (inHandler ==> !b) && (run < NPROC && !inHandler ==> b)
  }

  /** Which thread can be where. */
  predicate Legal(run: nat, inHandler: bool, pc: Pc) {
    match pc
    case Code => !inHandler
    case Setup(p) => !inHandler && p < NPROC
    case Trapret => !inHandler && run < NPROC
    case TimerTest => inHandler
    case Iret => inHandler
    case Checks(e) => run < NPROC && Right(run, inHandler, e)
    case SwitchOut(e, v) => run < NPROC && Right(run, inHandler, e) && Right(run, inHandler, v)
    case Resume(e, v) => run < NPROC && Right(run, inHandler, e) && Right(run, inHandler, v)
    case Scan(e, i) => run == SCHED && !inHandler && i <= NPROC
    case Chosen(e, i) => run == SCHED && !inHandler && i < NPROC
    case SetRun(e, i) => run == SCHED && !inHandler && i < NPROC
    case SwitchTo(e, i) => run == SCHED && !inHandler && i < NPROC
    case Back(e, i) => run == SCHED && !inHandler && i < NPROC
    case _ => LegalTask(run, inHandler, TaskOf(pc).value) && (TaskOf(pc).value.Fork? ==> !Entering(pc)) && Fits(pc)
  }

  predicate LegalTask(run: nat, inHandler: bool, t: Task) {
    match t
    case Console => true
    case Allocate => !inHandler
    case Allocated(p) => !inHandler && p < NPROC
    case Publish(p) => !inHandler && p < NPROC
    case Plain => !inHandler
    case Yield(e) => run < NPROC && Right(run, inHandler, e)
    case Fork => run < NPROC && !inHandler
    case Schedule(e) => run == SCHED && !inHandler
    case Uvm(e, i) => run == SCHED && !inHandler && i < NPROC
  }

  /** On the way into a critical section, or inside it. */
  predicate Entering(pc: Pc) {
    pc.ReadFlags? || pc.Cli? || pc.SaveFlag? || pc.Count? || pc.TestHolding? || pc.Xchg? || pc.Critical?
  }

  /** Tasks that only release are never on the way in, those that only enter never on the way out;
      switch_to_uvm takes no lock. */
  predicate Fits(pc: Pc) {
    var t := TaskOf(pc);
    t.Some? ==>
      && (t.value.Allocated? || t.value.Plain? || t.value.Fork? ==> !Entering(pc))
      && (t.value.Allocate? || t.value.Publish? ==> Entering(pc))
      && (t.value.Uvm? ==> !(pc.TestHolding? || pc.Xchg? || pc.Critical? || pc.Leave? || pc.Unlock?))
  }

  /** intena is this context's flag from the save in pushcli to the test in popcli, except for the two
      sections that begin on one thread and end on another. */
  predicate OwnsIntena(pc: Pc) {
    var t := TaskOf(pc);
    || pc.Checks? || pc.SwitchOut?
    || (t.Some? && !t.value.Fork? && !t.value.Schedule? && !t.value.Uvm? && !pc.ReadFlags? && !pc.Cli? && !pc.SaveFlag?)
  }

  predicate FlagsOk(s: State)
    requires s.run < |s.threads|
  {
    var pc, irq := Me(s).pc, Me(s).saved.Some?;
    && (irq ==> !s.flag)
    && (!Open(pc) ==> !s.flag)
    && (Open(pc) && !irq && s.run < NPROC && !pc.Trapret? ==> s.flag)
    && (pc.Cli? ==> pc.eflags == s.flag)
    && (pc.SaveFlag? && !pc.t.Uvm? && !pc.t.Schedule? ==> Right(s.run, irq, pc.eflags))
    && (OwnsIntena(pc) ==> Right(s.run, irq, s.intena))
  }

  predicate SavedOk(run: nat, saved: Option<Pc>) {
    saved.Some? ==>
      && Open(saved.value)
      && Legal(run, false, saved.value)
      && (saved.value.Cli? ==> saved.value.eflags)
  }

  predicate CpuOk(s: State)
    requires s.run < |s.threads|
  {
    var pc := Me(s).pc;
    && s.ncli == Depth(pc)
    && s.ptable == HoldsPtable(pc)
    && s.cons == HoldsCons(pc)
    && FlagsOk(s)
    && Legal(s.run, Me(s).saved.Some?, pc)
    && SavedOk(s.run, Me(s).saved)
  }

  // ---- Threads that are switched out ----

  predicate Parked(t: nat, th: Thread) {
    if t == SCHED then th.pc.Back? && th.pc.i < NPROC && th.saved.None?
    else
      || th == Thread(Leave(Fork), None)
      || (th.pc.Resume? && Legal(t, th.saved.Some?, th.pc) && SavedOk(t, th.saved))
  }

  predicate ParkedOk(s: State) {
    forall t :: 0 <= t < |s.threads| && t != s.run ==> Parked(t, s.threads[t])
  }

  // ---- Process states ----

  /** The scheduler between marking process i RUNNING and switching to it. */
  predicate Dispatching(pc: Pc, i: nat) {
    (TaskOf(pc).Some? && TaskOf(pc).value.Uvm? && TaskOf(pc).value.i == i) || (pc.SwitchTo? && pc.i == i)
  }

  predicate StatesOk(s: State)
    requires s.run < |s.threads|
  {
    var pc := Me(s).pc;
    && (forall p :: 0 <= p < |s.procs| && s.procs[p] == RUNNING ==> s.cur == Some(p) && (s.run == p || Dispatching(pc, p)))
    && (s.run < NPROC && s.run < |s.procs| ==>
          && s.cur == Some(s.run)
          && s.procs[s.run] == (if pc.Checks? || pc.SwitchOut? then RUNABLE else RUNNING)
          && |s.threads| > SCHED && s.threads[SCHED].pc.Back? && s.threads[SCHED].pc.i == s.run)
    && (s.run == SCHED ==>
          && (pc.Chosen? && pc.i < |s.procs| ==> s.procs[pc.i] == RUNABLE)
          && (pc.SetRun? && pc.i < |s.procs| ==> s.procs[pc.i] == RUNABLE && s.cur == Some(pc.i))
          && (forall p :: 0 <= p < |s.procs| && Dispatching(pc, p) ==> s.procs[p] == RUNNING))
  }

  // ---- Slots being filled in ----

  function OwnedBy(pc: Pc): Option<nat> {
    if pc.Setup? then Some(pc.p)
    else match TaskOf(pc)
      case Some(Allocated(p)) => Some(p)
      case Some(Publish(p)) => Some(p)
      case _ => None
  }

  /** The slot a thread has allocated and not yet published. */
  function Owned(th: Thread): Option<nat> {
    OwnedBy(Base(th))
  }

  predicate OwnOk(s: State) {
    && (forall t :: 0 <= t < |s.threads| && Owned(s.threads[t]).Some? ==>
          Owned(s.threads[t]).value < |s.procs| && s.procs[Owned(s.threads[t]).value] == EMBRYO)
    && (forall t, u :: 0 <= t < u < |s.threads| && Owned(s.threads[t]).Some? ==> Owned(s.threads[t]) != Owned(s.threads[u]))
  }

  predicate PidsOk(s: State) {
    && |s.pids| == |s.procs|
    && s.nextpid >= 1
    && (forall p :: 0 <= p < |s.procs| && s.procs[p] != UNUSED ==> 1 <= s.pids[p] < s.nextpid)
    && (forall p, q :: 0 <= p < q < |s.procs| && s.procs[p] != UNUSED && s.procs[q] != UNUSED ==> s.pids[p] != s.pids[q])
  }

  predicate Shape(s: State) {
    && |s.threads| == NPROC + 1
    && |s.procs| == NPROC
    && s.run <= SCHED
    && !s.panicked
  }

  predicate Inv(s: State) {
    Shape(s) && CpuOk(s) && ParkedOk(s) && StatesOk(s) && OwnOk(s) && PidsOk(s)
  }

  lemma BootInv()
    ensures Inv(Scheduler.Boot())
  {
    var s := Scheduler.Boot();
    assert s.threads[SCHED] == Thread(Code, None);
    assert forall t :: 0 <= t < NPROC ==> s.threads[t] == Thread(Leave(Fork), None);
    assert Shape(s) && CpuOk(s);
    assert StatesOk(s) && PidsOk(s);
    assert ParkedOk(s);
    assert forall t :: 0 <= t <= NPROC ==> Owned(s.threads[t]) == None;
    assert OwnOk(s) by {
      hide Owned;
    }
  }

  // ---- Which part of Execute a statement runs ----

  lemma RunsBody(s: State, begin: Option<Task>)
    requires s.run < |s.threads| && Me(s).pc.Critical?
    ensures Execute(s, begin) == Body(s, Me(s).pc.t)
  {
    hide Body, Switching;
  }

  predicate Switches(pc: Pc) {
    pc.Checks? || pc.SwitchOut? || pc.Resume? || pc.Scan? || pc.Chosen? || pc.SetRun? || pc.SwitchTo? || pc.Back?
  }

  lemma RunsSwitching(s: State, begin: Option<Task>)
    requires s.run < |s.threads| && Switches(Me(s).pc)
    ensures Execute(s, begin) == Switching(s)
  {
    hide Body, Switching;
  }

  // ---- The CPU part, statement by statement ----

  lemma CpuCode(s: State, begin: Option<Task>)
    requires Shape(s) && CpuOk(s)
    requires Me(s).pc.Code? || Me(s).pc.Setup? || Me(s).pc.Trapret?
    ensures Shape(Execute(s, begin)) && CpuOk(Execute(s, begin))
  {
  }

  lemma CpuHandler(s: State, begin: Option<Task>)
    requires Shape(s) && CpuOk(s)
    requires Me(s).pc.TimerTest? || Me(s).pc.Iret?
    requires Me(s).pc.TimerTest? && s.cur.Some? && s.cur.value < NPROC && s.procs[s.cur.value] == RUNNING ==> s.run < NPROC
    ensures Shape(Execute(s, begin)) && CpuOk(Execute(s, begin))
  {
  }

  lemma CpuReadFlags(s: State, begin: Option<Task>)
    requires Shape(s) && CpuOk(s)
    requires Me(s).pc.ReadFlags? || Me(s).pc.Cli?
    ensures Shape(Execute(s, begin)) && CpuOk(Execute(s, begin))
  {
  }

  lemma CpuCount(s: State, begin: Option<Task>)
    requires Shape(s) && CpuOk(s)
    requires Me(s).pc.SaveFlag? || Me(s).pc.Count?
    ensures Shape(Execute(s, begin)) && CpuOk(Execute(s, begin))
  {
  }

  lemma CpuAcquire(s: State, begin: Option<Task>)
    requires Shape(s) && CpuOk(s)
    requires Me(s).pc.TestHolding? || Me(s).pc.Xchg?
    ensures Shape(Execute(s, begin)) && CpuOk(Execute(s, begin))
  {
  }

  lemma CpuBody(s: State, begin: Option<Task>)
    requires Shape(s) && CpuOk(s)
    requires Me(s).pc.Critical?
    requires Me(s).pc.t.Allocate? || Me(s).pc.t.Publish?
    requires OwnOk(s) && |s.pids| == NPROC
    ensures Shape(Execute(s, begin)) && CpuOk(Execute(s, begin))
  {
    RunsBody(s, begin);
    hide Execute, Switching;
  }

  lemma CpuBodyOther(s: State, begin: Option<Task>)
    requires Shape(s) && CpuOk(s)
    requires Me(s).pc.Critical?
    requires !Me(s).pc.t.Allocate? && !Me(s).pc.t.Publish?
    requires Me(s).pc.t.Yield? ==> s.cur == Some(s.run) && s.run < NPROC
    ensures Shape(Execute(s, begin)) && CpuOk(Execute(s, begin))
  {
    RunsBody(s, begin);
    hide Execute, Switching;
  }

  lemma CpuRelease(s: State, begin: Option<Task>)
    requires Shape(s) && CpuOk(s)
    requires Me(s).pc.Leave? || Me(s).pc.Unlock?
    ensures Shape(Execute(s, begin)) && CpuOk(Execute(s, begin))
  {
  }

  lemma CpuPop(s: State, begin: Option<Task>)
    requires Shape(s) && CpuOk(s)
    requires Me(s).pc.PopTest? || Me(s).pc.PopCount?
    ensures Shape(Execute(s, begin)) && CpuOk(Execute(s, begin))
  {
  }

  lemma CpuSti(s: State, begin: Option<Task>)
    requires Shape(s) && CpuOk(s)
    requires Me(s).pc.PopSti?
    ensures Shape(Execute(s, begin)) && CpuOk(Execute(s, begin))
  {
  }

  lemma CpuChecks(s: State, begin: Option<Task>)
    requires Shape(s) && CpuOk(s)
    requires Me(s).pc.Checks? || Me(s).pc.Resume?
    requires Me(s).pc.Checks? ==> s.cur == Some(s.run) && s.run < NPROC && s.procs[s.run] == RUNABLE
    ensures Shape(Execute(s, begin)) && CpuOk(Execute(s, begin))
  {
    RunsSwitching(s, begin);
    hide Execute, Body;
  }

  lemma CpuScan(s: State, begin: Option<Task>)
    requires Shape(s) && CpuOk(s)
    requires Me(s).pc.Scan?
    ensures Shape(Execute(s, begin)) && CpuOk(Execute(s, begin))
  {
    RunsSwitching(s, begin);
    hide Execute, Body;
  }

  lemma CpuBack(s: State, begin: Option<Task>)
    requires Shape(s) && CpuOk(s)
    requires Me(s).pc.Back?
    ensures Shape(Execute(s, begin)) && CpuOk(Execute(s, begin))
  {
    RunsSwitching(s, begin);
    hide Execute, Body;
  }

  lemma CpuChosen(s: State, begin: Option<Task>)
    requires Shape(s) && CpuOk(s)
    requires Me(s).pc.Chosen? || Me(s).pc.SetRun?
    ensures Shape(Execute(s, begin)) && CpuOk(Execute(s, begin))
  {
    RunsSwitching(s, begin);
    hide Execute, Body;
  }

  lemma CpuOut(s: State, begin: Option<Task>)
    requires Shape(s) && CpuOk(s)
    requires Me(s).pc.SwitchOut?
    requires s.cur == Some(s.run) && s.run < NPROC && Parked(SCHED, s.threads[SCHED])
    ensures Shape(Execute(s, begin)) && CpuOk(Execute(s, begin))
  {
    RunsSwitching(s, begin);
    hide Execute, Body;
  }

  lemma CpuTo(s: State, begin: Option<Task>)
    requires Shape(s) && CpuOk(s)
    requires Me(s).pc.SwitchTo?
    requires Parked(Me(s).pc.i, s.threads[Me(s).pc.i])
    ensures Shape(Execute(s, begin)) && CpuOk(Execute(s, begin))
  {
    RunsSwitching(s, begin);
    hide Execute, Body;
  }
  lemma CpuInterrupt(s: State, handler: Pc)
    requires Shape(s) && CpuOk(s) && (handler == TimerTest || handler == ReadFlags(Console))
    ensures Shape(Interrupt(s, handler)) && CpuOk(Interrupt(s, handler))
  {
  }

  // ---- The other threads ----

  /** r differs from s on the running thread's stack only. */
  predicate OnlyMe(s: State, r: State) {
    && r.run == s.run
    && |r.threads| == |s.threads|
    && forall t :: 0 <= t < |s.threads| && t != s.run ==> r.threads[t] == s.threads[t]
  }

  lemma OwnStackBody(s: State, t: Task)
    requires Shape(s)
    ensures OnlyMe(s, Body(s, t))
  {
  }

  lemma OwnStackGoto(s: State)
    requires Shape(s) && (Me(s).pc.Checks? || Me(s).pc.Resume? || !Switches(Me(s).pc))
    ensures OnlyMe(s, Switching(s))
  {
  }

  lemma OwnStackScan(s: State)
    requires Shape(s) && (Me(s).pc.Scan? || Me(s).pc.Chosen? || Me(s).pc.SetRun? || Me(s).pc.Back?)
    ensures OnlyMe(s, Switching(s))
  {
  }

  lemma OwnStackSwitching(s: State)
    requires Shape(s) && !Me(s).pc.SwitchOut? && !Me(s).pc.SwitchTo?
    ensures OnlyMe(s, Switching(s))
  {
    if Me(s).pc.Checks? || Me(s).pc.Resume? || !Switches(Me(s).pc) {
      OwnStackGoto(s);
    } else {
      OwnStackScan(s);
    }
  }

  lemma OwnStackPush(s: State, begin: Option<Task>)
    requires Shape(s)
    requires Pushing(Me(s).pc)
    ensures OnlyMe(s, Execute(s, begin))
  {
    hide Switching, Body;
  }

  lemma OwnStackLock(s: State, begin: Option<Task>)
    requires Shape(s)
    requires Locking(Me(s).pc)
    ensures OnlyMe(s, Execute(s, begin))
  {
    hide Switching, Body;
  }

  predicate Pushing(pc: Pc) {
    pc.Code? || pc.Setup? || pc.Trapret? || pc.TimerTest? || pc.Iret? || pc.ReadFlags? || pc.Cli? || pc.SaveFlag? || pc.Count?
  }

  predicate Locking(pc: Pc) {
    pc.TestHolding? || pc.Xchg? || pc.Leave? || pc.Unlock? || pc.PopTest? || pc.PopCount? || pc.PopSti?
  }

  /** A statement other than a context switch stays on its own stack. */
  lemma OwnStack(s: State, begin: Option<Task>)
    requires Shape(s) && !Me(s).pc.SwitchOut? && !Me(s).pc.SwitchTo?
    ensures OnlyMe(s, Execute(s, begin))
  {
    hide Switching, Body, OnlyMe;
    if Pushing(Me(s).pc) {
      OwnStackPush(s, begin);
    } else if Locking(Me(s).pc) {
      OwnStackLock(s, begin);
    } else if Me(s).pc.Critical? {
      OwnStackBody(s, Me(s).pc.t);
    } else {
      OwnStackSwitching(s);
    }
  }

  lemma ParkedStep(s: State, begin: Option<Task>)
    requires Shape(s) && CpuOk(s) && ParkedOk(s)
    requires Me(s).pc.SwitchOut? ==> s.cur == Some(s.run) && s.run < NPROC
    ensures ParkedOk(Execute(s, begin))
  {
    hide FlagsOk, Depth, HoldsPtable, HoldsCons;
    if Me(s).pc.SwitchOut? || Me(s).pc.SwitchTo? {
      var r := Execute(s, begin);
      assert forall t :: 0 <= t < |s.threads| && t != s.run ==> r.threads[t] == s.threads[t];
    } else {
      hide Execute;
      OwnStack(s, begin);
    }
  }

  // ---- Process states, slots and pids ----

  /** The statement a thread's own code has reached, below any interrupt handler. */
  function Base(th: Thread): Pc {
    if th.saved.Some? then th.saved.value else th.pc
  }

  /** For the scheduler's thread: the process its loop will test next. */
  function Position(th: Thread): int {
    match Base(th)
    case Scan(e, i) => i % NPROC
    case Chosen(e, i) => i
    case SetRun(e, i) => i
    case SwitchTo(e, i) => (i + 1) % NPROC
    case Back(e, i) => (i + 1) % NPROC
    case _ =>
      match TaskOf(Base(th))
      case Some(Uvm(e, i)) => (i + 1) % NPROC
      case _ => 0
  }

  /** r has s's process table, and its running thread owns and is dispatching what it did in s. */
  ghost predicate Quiet(s: State, r: State)
    requires s.run < |s.threads|
  {
    && OnlyMe(s, r)
    && r.procs == s.procs && r.cur == s.cur && r.pids == s.pids && r.nextpid == s.nextpid
    && r.dispatches == s.dispatches
    && Owned(Me(r)) == Owned(Me(s))
    && (Me(s).pc.Scan? || Position(Me(r)) == Position(Me(s)))
    && (forall p: nat :: Dispatching(Me(r).pc, p) <==> Dispatching(Me(s).pc, p))
    && (Me(r).pc.Chosen? || Me(r).pc.SetRun? ==> Me(r) == Me(s))
    && (Me(r).pc.Checks? || Me(r).pc.SwitchOut? <==> Me(s).pc.Checks? || Me(s).pc.SwitchOut?)
  }

  /** Moving on inside the same pushcli, acquire, release or popcli. */
  lemma SameTaskQuiet(s: State, r: State)
    requires Shape(s) && OnlyMe(s, r)
    requires r.procs == s.procs && r.cur == s.cur && r.pids == s.pids && r.nextpid == s.nextpid && r.dispatches == s.dispatches
    requires TaskOf(Me(s).pc).Some? && TaskOf(Me(r).pc) == TaskOf(Me(s).pc) && Me(r).saved == Me(s).saved
    ensures Quiet(s, r)
  {
  }

  lemma QuietCode(s: State, begin: Option<Task>)
    requires Shape(s) && CpuOk(s) && !Execute(s, begin).panicked
    requires Me(s).pc.Code? || Me(s).pc.Setup?
    ensures Quiet(s, Execute(s, begin))
  {
    hide Switching, Body, FlagsOk, Depth, HoldsPtable, HoldsCons, OnlyMe, SavedOk;
    OwnStack(s, begin);
  }

  lemma QuietTrapret(s: State, begin: Option<Task>)
    requires Shape(s) && CpuOk(s) && !Execute(s, begin).panicked
    requires Me(s).pc.Trapret?
    ensures Quiet(s, Execute(s, begin))
  {
    hide Switching, Body, FlagsOk, Depth, HoldsPtable, HoldsCons, OnlyMe, SavedOk;
    OwnStack(s, begin);
  }

  lemma QuietTimer(s: State, begin: Option<Task>)
    requires Shape(s) && CpuOk(s) && !Execute(s, begin).panicked
    requires Me(s).pc.TimerTest?
    ensures Quiet(s, Execute(s, begin))
  {
    hide FlagsOk, Depth, HoldsPtable, HoldsCons, OnlyMe, SavedOk;
    OwnStack(s, begin);
    TimerStep(s, begin);
    hide Execute;
  }

  lemma TimerStep(s: State, begin: Option<Task>)
    requires s.run < |s.threads| && Me(s).pc.TimerTest?
    ensures Execute(s, begin) == Goto(s, ReadFlags(Yield(s.flag))) || Execute(s, begin) == Goto(s, Iret)
  {
    hide Switching, Body;
  }

  lemma QuietIret(s: State, begin: Option<Task>)
    requires Shape(s) && CpuOk(s) && !Execute(s, begin).panicked
    requires Me(s).pc.Iret?
    ensures Quiet(s, Execute(s, begin))
  {
    hide Switching, Body, FlagsOk, Depth, HoldsPtable, HoldsCons, OnlyMe;
    OwnStack(s, begin);
  }

  lemma QuietFlags(s: State, begin: Option<Task>)
    requires Shape(s) && CpuOk(s) && !Execute(s, begin).panicked
    requires Me(s).pc.ReadFlags? || Me(s).pc.Cli?
    ensures Quiet(s, Execute(s, begin))
  {
    hide Switching, Body, FlagsOk, Depth, HoldsPtable, HoldsCons, OnlyMe, SavedOk, Legal;
    OwnStack(s, begin);
    hide Owned, Position, Dispatching;
    SameTaskQuiet(s, Execute(s, begin));
  }

  lemma QuietSave(s: State, begin: Option<Task>)
    requires Shape(s) && CpuOk(s) && !Execute(s, begin).panicked
    requires Me(s).pc.SaveFlag?
    ensures Quiet(s, Execute(s, begin))
  {
    hide Switching, Body, FlagsOk, Depth, HoldsPtable, HoldsCons, OnlyMe, SavedOk, Legal;
    OwnStack(s, begin);
    hide Owned, Position, Dispatching;
    SameTaskQuiet(s, Execute(s, begin));
  }

  lemma QuietCount(s: State, begin: Option<Task>)
    requires Shape(s) && CpuOk(s) && !Execute(s, begin).panicked
    requires Me(s).pc.Count?
    ensures Quiet(s, Execute(s, begin))
  {
    hide Switching, Body, FlagsOk, Depth, HoldsPtable, HoldsCons, OnlyMe, SavedOk, Legal;
    OwnStack(s, begin);
    hide Owned, Position, Dispatching;
    SameTaskQuiet(s, Execute(s, begin));
  }

  lemma QuietTest(s: State, begin: Option<Task>)
    requires Shape(s) && CpuOk(s) && !Execute(s, begin).panicked
    requires Me(s).pc.TestHolding?
    ensures Quiet(s, Execute(s, begin))
  {
    hide Switching, Body, FlagsOk, Depth, HoldsPtable, HoldsCons, OnlyMe, SavedOk, Legal;
    OwnStack(s, begin);
    hide Owned, Position, Dispatching;
    SameTaskQuiet(s, Execute(s, begin));
  }

  lemma QuietXchg(s: State, begin: Option<Task>)
    requires Shape(s) && CpuOk(s) && !Execute(s, begin).panicked
    requires Me(s).pc.Xchg?
    ensures Quiet(s, Execute(s, begin))
  {
    hide Switching, Body, FlagsOk, Depth, HoldsPtable, HoldsCons, OnlyMe, SavedOk, Legal;
    OwnStack(s, begin);
    hide Owned, Position, Dispatching;
    SameTaskQuiet(s, Execute(s, begin));
  }

  lemma QuietLeave(s: State, begin: Option<Task>)
    requires Shape(s) && CpuOk(s) && !Execute(s, begin).panicked
    requires Me(s).pc.Leave?
    ensures Quiet(s, Execute(s, begin))
  {
    hide Switching, Body, FlagsOk, Depth, HoldsPtable, HoldsCons, OnlyMe, SavedOk, Legal;
    OwnStack(s, begin);
    hide Owned, Position, Dispatching;
    SameTaskQuiet(s, Execute(s, begin));
  }

  lemma QuietUnlock(s: State, begin: Option<Task>)
    requires Shape(s) && CpuOk(s) && !Execute(s, begin).panicked
    requires Me(s).pc.Unlock?
    ensures Quiet(s, Execute(s, begin))
  {
    hide Switching, Body, FlagsOk, Depth, HoldsPtable, HoldsCons, OnlyMe, SavedOk, Legal;
    OwnStack(s, begin);
    hide Owned, Position, Dispatching;
    SameTaskQuiet(s, Execute(s, begin));
  }

  lemma QuietPopTest(s: State, begin: Option<Task>)
    requires Shape(s) && CpuOk(s) && !Execute(s, begin).panicked
    requires Me(s).pc.PopTest?
    ensures Quiet(s, Execute(s, begin))
  {
    hide Switching, Body, FlagsOk, Depth, HoldsPtable, HoldsCons, OnlyMe, SavedOk, Legal;
    OwnStack(s, begin);
    hide Owned, Position, Dispatching;
    SameTaskQuiet(s, Execute(s, begin));
  }

  lemma QuietPopCount(s: State, begin: Option<Task>)
    requires Shape(s) && CpuOk(s) && !Execute(s, begin).panicked
    requires Me(s).pc.PopCount?
    ensures Quiet(s, Execute(s, begin))
  {
    hide Switching, Body, FlagsOk, Depth, HoldsPtable, HoldsCons, OnlyMe, SavedOk, Legal;
    OwnStack(s, begin);
    hide Owned, Position, Dispatching;
    SameTaskQuiet(s, Execute(s, begin));
  }

  lemma QuietSti(s: State, begin: Option<Task>)
    requires Shape(s) && CpuOk(s) && !Execute(s, begin).panicked
    requires Me(s).pc.PopSti?
    ensures Quiet(s, Execute(s, begin))
  {
    hide Switching, Body, FlagsOk, Depth, HoldsPtable, HoldsCons, OnlyMe, SavedOk;
    OwnStack(s, begin);
  }

  lemma QuietStep(s: State, begin: Option<Task>)
    requires Shape(s) && CpuOk(s) && !Execute(s, begin).panicked && (Pushing(Me(s).pc) || Locking(Me(s).pc))
    ensures Quiet(s, Execute(s, begin))
  {
    hide Execute, Quiet, CpuOk;
    match Me(s).pc
    case Code => QuietCode(s, begin);
    case Setup(_) => QuietCode(s, begin);
    case Trapret => QuietTrapret(s, begin);
    case TimerTest => QuietTimer(s, begin);
    case Iret => QuietIret(s, begin);
    case ReadFlags(_) => QuietFlags(s, begin);
    case Cli(_, _) => QuietFlags(s, begin);
    case SaveFlag(_, _) => QuietSave(s, begin);
    case Count(_) => QuietCount(s, begin);
    case TestHolding(_) => QuietTest(s, begin);
    case Xchg(_) => QuietXchg(s, begin);
    case Leave(_) => QuietLeave(s, begin);
    case Unlock(_) => QuietUnlock(s, begin);
    case PopTest(_) => QuietPopTest(s, begin);
    case PopCount(_) => QuietPopCount(s, begin);
    case PopSti(_) => QuietSti(s, begin);
    case _ =>
  }

  lemma QuietInterrupt(s: State, handler: Pc)
    requires Shape(s) && CpuOk(s) && (handler == TimerTest || handler == ReadFlags(Console))
    ensures Quiet(s, Interrupt(s, handler))
  {
    hide Depth, HoldsPtable, HoldsCons;
  }

  lemma QuietKeeps(s: State, r: State)
    requires Shape(s) && Shape(r) && Quiet(s, r) && StatesOk(s) && OwnOk(s) && PidsOk(s)
    ensures StatesOk(r) && OwnOk(r) && PidsOk(r)
  {
    hide Dispatching, OwnedBy, TaskOf;
    assert forall t :: 0 <= t < |s.threads| ==> Owned(r.threads[t]) == Owned(s.threads[t]);
  }

  lemma QuietConsole(s: State, begin: Option<Task>)
    requires Shape(s) && CpuOk(s) && Me(s).pc.Critical? && Me(s).pc.t.Console?
    ensures Quiet(s, Execute(s, begin))
  {
    RunsBody(s, begin);
    hide Execute, Switching;
    hide Switching, FlagsOk, Depth, HoldsPtable, HoldsCons, OnlyMe, SavedOk;
    OwnStack(s, begin);
  }

  lemma QuietSchedule(s: State, begin: Option<Task>)
    requires Shape(s) && CpuOk(s) && Me(s).pc.Critical? && Me(s).pc.t.Schedule?
    ensures Quiet(s, Execute(s, begin))
  {
    RunsBody(s, begin);
    hide Execute, Switching;
    hide Switching, FlagsOk, Depth, HoldsPtable, HoldsCons, OnlyMe, SavedOk;
    OwnStack(s, begin);
  }

  lemma QuietCritical(s: State, begin: Option<Task>)
    requires Shape(s) && CpuOk(s) && Me(s).pc.Critical?
    requires !Me(s).pc.t.Allocate? && !Me(s).pc.t.Publish? && !Me(s).pc.t.Yield?
    ensures Quiet(s, Execute(s, begin))
  {
    RunsBody(s, begin);
    hide Execute, Switching;
    hide Execute, Quiet, FlagsOk, Depth, HoldsPtable, HoldsCons, SavedOk;
    if Me(s).pc.t.Console? {
      QuietConsole(s, begin);
    } else {
      assert Me(s).pc.t.Schedule?;
      QuietSchedule(s, begin);
    }
  }

  lemma QuietChecks(s: State, begin: Option<Task>)
    requires Shape(s) && CpuOk(s) && !Execute(s, begin).panicked && (Me(s).pc.Checks? || Me(s).pc.Resume?)
    ensures Quiet(s, Execute(s, begin))
  {
    RunsSwitching(s, begin);
    hide Execute, Body;
    hide Body, FlagsOk, Depth, HoldsPtable, HoldsCons, OnlyMe, SavedOk;
    OwnStack(s, begin);
  }

  lemma QuietScan(s: State, begin: Option<Task>)
    requires Shape(s) && CpuOk(s) && Me(s).pc.Scan? && !(Me(s).pc.i < NPROC && s.procs[Me(s).pc.i] == RUNABLE)
    ensures Quiet(s, Execute(s, begin))
  {
    RunsSwitching(s, begin);
    hide Execute, Body;
    hide Body, FlagsOk, Depth, HoldsPtable, HoldsCons, OnlyMe, SavedOk;
    OwnStack(s, begin);
  }

  lemma QuietBack(s: State, begin: Option<Task>)
    requires Shape(s) && CpuOk(s) && Me(s).pc.Back?
    ensures Quiet(s, Execute(s, begin))
  {
    RunsSwitching(s, begin);
    hide Execute, Body;
    hide Body, FlagsOk, Depth, HoldsPtable, HoldsCons, OnlyMe, SavedOk;
    OwnStack(s, begin);
  }

  /** alloc_process took slot p for the running thread. */
  predicate Took(s: State, r: State, p: nat)
    requires s.run < |s.threads|
  {
    && OnlyMe(s, r)
    && p < |s.procs| == |s.pids| && s.procs[p] == UNUSED
    && r.procs == s.procs[p := EMBRYO] && r.pids == s.pids[p := s.nextpid] && r.nextpid == s.nextpid + 1
    && r.cur == s.cur
    && Me(s).pc == Critical(Allocate) && Me(s).saved.None?
    && Me(r) == Thread(Leave(Allocated(p)), None)
  }

  lemma AllocateTakes(s: State, begin: Option<Task>)
    requires Shape(s) && CpuOk(s) && |s.pids| == NPROC && Me(s).pc.Critical? && Me(s).pc.t.Allocate?
    ensures var r, p := Execute(s, begin), FirstUnused(s.procs); if p < NPROC then Took(s, r, p) else Quiet(s, r)
  {
    RunsBody(s, begin);
    hide Execute, Switching;
    hide FlagsOk, Depth, HoldsPtable, HoldsCons, Switching, OnlyMe;
    OwnStack(s, begin);
  }

  lemma TookStates(s: State, r: State, p: nat)
    requires Shape(s) && StatesOk(s) && Took(s, r, p)
    ensures StatesOk(r)
  {
    assert forall q :: 0 <= q < |s.procs| && r.procs[q] == RUNNING ==> s.procs[q] == RUNNING;
  }

  lemma TookOwn(s: State, r: State, p: nat)
    requires Shape(s) && OwnOk(s) && Took(s, r, p)
    ensures OwnOk(r)
  {
    assert Owned(Me(r)) == Some(p) && Owned(Me(s)) == None;
    hide Owned;
    forall t | 0 <= t < |s.threads| && t != s.run && Owned(s.threads[t]).Some?
      ensures Owned(s.threads[t]).value < |s.procs| && Owned(s.threads[t]).value != p
    {
    }
  }

  lemma TookPids(s: State, r: State, p: nat)
    requires PidsOk(s) && s.run < |s.threads| && Took(s, r, p)
    ensures PidsOk(r)
  {
    hide OnlyMe;
  }

  /** Slots stay owned when only thread t changes, what it owns does not, and no slot stops being EMBRYO. */
  lemma OwnKept(s: State, r: State, t: nat)
    requires OwnOk(s) && t < |s.threads| == |r.threads| && |s.procs| == |r.procs|
    requires forall u :: 0 <= u < |s.threads| && u != t ==> r.threads[u] == s.threads[u]
    requires Owned(r.threads[t]) == Owned(s.threads[t])
    requires forall p :: 0 <= p < |s.procs| && s.procs[p] == EMBRYO ==> r.procs[p] == EMBRYO
    ensures OwnOk(r)
  {
    hide Owned;
    assert forall u :: 0 <= u < |s.threads| ==> Owned(r.threads[u]) == Owned(s.threads[u]);
  }

  lemma StatesPublish(s: State, begin: Option<Task>)
    requires Shape(s) && CpuOk(s) && ParkedOk(s) && StatesOk(s) && OwnOk(s) && |s.pids| == NPROC
    requires Me(s).pc.Critical? && Me(s).pc.t.Publish?
    ensures var r := Execute(s, begin); |r.threads| > r.run ==> StatesOk(r)
  {
    RunsBody(s, begin);
    hide Execute, Switching;
    hide FlagsOk, Depth, HoldsPtable, HoldsCons;
  }

  lemma OwnPublish(s: State, begin: Option<Task>)
    requires Shape(s) && CpuOk(s) && ParkedOk(s) && StatesOk(s) && OwnOk(s) && |s.pids| == NPROC
    requires Me(s).pc.Critical? && Me(s).pc.t.Publish?
    ensures var r := Execute(s, begin); |r.threads| > r.run ==> OwnOk(r)
  {
    RunsBody(s, begin);
    hide Execute, Switching;
    hide FlagsOk, Depth, HoldsPtable, HoldsCons;
  }

  lemma PidsPublish(s: State, begin: Option<Task>)
    requires Shape(s) && CpuOk(s) && StatesOk(s) && OwnOk(s) && PidsOk(s)
    requires Me(s).pc.Critical? && Me(s).pc.t.Publish?
    ensures var r := Execute(s, begin); |r.threads| > r.run ==> PidsOk(r)
  {
    RunsBody(s, begin);
    hide Execute, Switching;
    hide FlagsOk, Depth, HoldsPtable, HoldsCons;
  }

  lemma StatesYield(s: State, begin: Option<Task>)
    requires Shape(s) && CpuOk(s) && ParkedOk(s) && StatesOk(s) && OwnOk(s) && |s.pids| == NPROC
    requires Me(s).pc.Critical? && Me(s).pc.t.Yield?
    ensures var r := Execute(s, begin); |r.threads| > r.run ==> StatesOk(r)
  {
    RunsBody(s, begin);
    hide Execute, Switching;
    hide FlagsOk, Depth, HoldsPtable, HoldsCons;
  }

  lemma OwnYield(s: State, begin: Option<Task>)
    requires Shape(s) && CpuOk(s) && ParkedOk(s) && StatesOk(s) && OwnOk(s) && |s.pids| == NPROC
    requires Me(s).pc.Critical? && Me(s).pc.t.Yield?
    ensures var r := Execute(s, begin); |r.threads| > r.run ==> OwnOk(r)
  {
    RunsBody(s, begin);
    hide Execute, Switching, FlagsOk, Depth, HoldsPtable, HoldsCons, Legal, SavedOk, ParkedOk;
    var r := Execute(s, begin);
    if |r.threads| > r.run && !r.panicked {
      assert Owned(r.threads[s.run]) == Owned(s.threads[s.run]);
      hide Owned, OwnOk;
      OwnKept(s, r, s.run);
    }
  }

  lemma PidsYield(s: State, begin: Option<Task>)
    requires Shape(s) && CpuOk(s) && StatesOk(s) && OwnOk(s) && PidsOk(s)
    requires Me(s).pc.Critical? && Me(s).pc.t.Yield?
    ensures var r := Execute(s, begin); |r.threads| > r.run ==> PidsOk(r)
  {
    RunsBody(s, begin);
    hide Execute, Switching;
    hide FlagsOk, Depth, HoldsPtable, HoldsCons;
  }

  lemma StatesFound(s: State, begin: Option<Task>)
    requires Shape(s) && CpuOk(s) && ParkedOk(s) && StatesOk(s) && OwnOk(s) && |s.pids| == NPROC
    requires Me(s).pc.Scan? && Me(s).pc.i < NPROC && s.procs[Me(s).pc.i] == RUNABLE
    ensures var r := Execute(s, begin); |r.threads| > r.run ==> StatesOk(r)
  {
    RunsSwitching(s, begin);
    hide Execute, Body;
    hide FlagsOk, Depth, HoldsPtable, HoldsCons;
  }

  lemma OwnFound(s: State, begin: Option<Task>)
    requires Shape(s) && CpuOk(s) && ParkedOk(s) && StatesOk(s) && OwnOk(s) && |s.pids| == NPROC
    requires Me(s).pc.Scan? && Me(s).pc.i < NPROC && s.procs[Me(s).pc.i] == RUNABLE
    ensures var r := Execute(s, begin); |r.threads| > r.run ==> OwnOk(r)
  {
    RunsSwitching(s, begin);
    hide Execute, Body, FlagsOk, Depth, HoldsPtable, HoldsCons, Legal, SavedOk, ParkedOk;
    var r := Execute(s, begin);
    if |r.threads| > r.run && !r.panicked {
      assert Owned(r.threads[s.run]) == Owned(s.threads[s.run]);
      hide Owned, OwnOk;
      OwnKept(s, r, s.run);
    }
  }

  lemma PidsFound(s: State, begin: Option<Task>)
    requires Shape(s) && CpuOk(s) && StatesOk(s) && OwnOk(s) && PidsOk(s)
    requires Me(s).pc.Scan? && Me(s).pc.i < NPROC && s.procs[Me(s).pc.i] == RUNABLE
    ensures var r := Execute(s, begin); |r.threads| > r.run ==> PidsOk(r)
  {
    RunsSwitching(s, begin);
    hide Execute, Body;
    hide FlagsOk, Depth, HoldsPtable, HoldsCons;
  }

  lemma StatesChosen(s: State, begin: Option<Task>)
    requires Shape(s) && CpuOk(s) && ParkedOk(s) && StatesOk(s) && OwnOk(s) && |s.pids| == NPROC
    requires Me(s).pc.Chosen?
    ensures var r := Execute(s, begin); |r.threads| > r.run ==> StatesOk(r)
  {
    RunsSwitching(s, begin);
    hide Execute, Body;
    hide FlagsOk, Depth, HoldsPtable, HoldsCons;
  }

  lemma OwnChosen(s: State, begin: Option<Task>)
    requires Shape(s) && CpuOk(s) && ParkedOk(s) && StatesOk(s) && OwnOk(s) && |s.pids| == NPROC
    requires Me(s).pc.Chosen?
    ensures var r := Execute(s, begin); |r.threads| > r.run ==> OwnOk(r)
  {
    RunsSwitching(s, begin);
    hide Execute, Body, FlagsOk, Depth, HoldsPtable, HoldsCons, Legal, SavedOk, ParkedOk;
    var r := Execute(s, begin);
    if |r.threads| > r.run && !r.panicked {
      assert Owned(r.threads[s.run]) == Owned(s.threads[s.run]);
      hide Owned, OwnOk;
      OwnKept(s, r, s.run);
    }
  }

  lemma PidsChosen(s: State, begin: Option<Task>)
    requires Shape(s) && CpuOk(s) && StatesOk(s) && OwnOk(s) && PidsOk(s)
    requires Me(s).pc.Chosen?
    ensures var r := Execute(s, begin); |r.threads| > r.run ==> PidsOk(r)
  {
    RunsSwitching(s, begin);
    hide Execute, Body;
    hide FlagsOk, Depth, HoldsPtable, HoldsCons;
  }

  lemma StatesSetRun(s: State, begin: Option<Task>)
    requires Shape(s) && CpuOk(s) && ParkedOk(s) && StatesOk(s) && OwnOk(s) && |s.pids| == NPROC
    requires Me(s).pc.SetRun?
    ensures var r := Execute(s, begin); |r.threads| > r.run ==> StatesOk(r)
  {
    RunsSwitching(s, begin);
    hide Execute, Body;
    hide FlagsOk, Depth, HoldsPtable, HoldsCons;
  }

  lemma OwnSetRun(s: State, begin: Option<Task>)
    requires Shape(s) && CpuOk(s) && ParkedOk(s) && StatesOk(s) && OwnOk(s) && |s.pids| == NPROC
    requires Me(s).pc.SetRun?
    ensures var r := Execute(s, begin); |r.threads| > r.run ==> OwnOk(r)
  {
    RunsSwitching(s, begin);
    hide Execute, Body, FlagsOk, Depth, HoldsPtable, HoldsCons, Legal, SavedOk, ParkedOk;
    var r := Execute(s, begin);
    if |r.threads| > r.run && !r.panicked {
      assert Owned(r.threads[s.run]) == Owned(s.threads[s.run]);
      hide Owned, OwnOk;
      OwnKept(s, r, s.run);
    }
  }

  lemma PidsSetRun(s: State, begin: Option<Task>)
    requires Shape(s) && CpuOk(s) && StatesOk(s) && OwnOk(s) && PidsOk(s)
    requires Me(s).pc.SetRun?
    ensures var r := Execute(s, begin); |r.threads| > r.run ==> PidsOk(r)
  {
    RunsSwitching(s, begin);
    hide Execute, Body;
    hide FlagsOk, Depth, HoldsPtable, HoldsCons;
  }

  lemma StatesOut(s: State, begin: Option<Task>)
    requires Shape(s) && CpuOk(s) && ParkedOk(s) && StatesOk(s) && OwnOk(s) && |s.pids| == NPROC
    requires Me(s).pc.SwitchOut?
    ensures var r := Execute(s, begin); |r.threads| > r.run ==> StatesOk(r)
  {
    RunsSwitching(s, begin);
    hide Execute, Body;
    hide FlagsOk, Depth, HoldsPtable, HoldsCons;
  }

  lemma OwnOut(s: State, begin: Option<Task>)
    requires Shape(s) && CpuOk(s) && ParkedOk(s) && StatesOk(s) && OwnOk(s) && |s.pids| == NPROC
    requires Me(s).pc.SwitchOut?
    ensures var r := Execute(s, begin); |r.threads| > r.run ==> OwnOk(r)
  {
    RunsSwitching(s, begin);
    hide Execute, Body, FlagsOk, Depth, HoldsPtable, HoldsCons, Legal, SavedOk, ParkedOk;
    var r := Execute(s, begin);
    if |r.threads| > r.run && !r.panicked {
      assert Owned(r.threads[s.run]) == Owned(s.threads[s.run]);
      hide Owned, OwnOk;
      OwnKept(s, r, s.run);
    }
  }

  lemma PidsOut(s: State, begin: Option<Task>)
    requires Shape(s) && CpuOk(s) && StatesOk(s) && OwnOk(s) && PidsOk(s)
    requires Me(s).pc.SwitchOut?
    ensures var r := Execute(s, begin); |r.threads| > r.run ==> PidsOk(r)
  {
    RunsSwitching(s, begin);
    hide Execute, Body;
    hide FlagsOk, Depth, HoldsPtable, HoldsCons;
  }

  lemma StatesTo(s: State, begin: Option<Task>)
    requires Shape(s) && CpuOk(s) && ParkedOk(s) && StatesOk(s) && OwnOk(s) && |s.pids| == NPROC
    requires Me(s).pc.SwitchTo?
    ensures var r := Execute(s, begin); |r.threads| > r.run ==> StatesOk(r)
  {
    RunsSwitching(s, begin);
    hide Execute, Body;
    hide FlagsOk, Depth, HoldsPtable, HoldsCons;
  }

  lemma OwnTo(s: State, begin: Option<Task>)
    requires Shape(s) && CpuOk(s) && ParkedOk(s) && StatesOk(s) && OwnOk(s) && |s.pids| == NPROC
    requires Me(s).pc.SwitchTo?
    ensures var r := Execute(s, begin); |r.threads| > r.run ==> OwnOk(r)
  {
    RunsSwitching(s, begin);
    hide Execute, Body, FlagsOk, Depth, HoldsPtable, HoldsCons, Legal, SavedOk, ParkedOk;
    var r := Execute(s, begin);
    if |r.threads| > r.run && !r.panicked {
      assert Owned(r.threads[s.run]) == Owned(s.threads[s.run]);
      hide Owned, OwnOk;
      OwnKept(s, r, s.run);
    }
  }

  lemma PidsTo(s: State, begin: Option<Task>)
    requires Shape(s) && CpuOk(s) && StatesOk(s) && OwnOk(s) && PidsOk(s)
    requires Me(s).pc.SwitchTo?
    ensures var r := Execute(s, begin); |r.threads| > r.run ==> PidsOk(r)
  {
    RunsSwitching(s, begin);
    hide Execute, Body;
    hide FlagsOk, Depth, HoldsPtable, HoldsCons;
  }

  // ---- Every step keeps the invariant ----

  /** What the CPU part of a step needs to know about the rest of the state. */
  lemma CpuFacts(s: State)
    requires Inv(s)
    ensures |s.pids| == NPROC
    ensures Me(s).pc.TimerTest? && s.cur.Some? && s.cur.value < NPROC && s.procs[s.cur.value] == RUNNING ==> s.run < NPROC
    ensures Me(s).pc.Critical? && Me(s).pc.t.Yield? ==> s.cur == Some(s.run) && s.run < NPROC
    ensures Me(s).pc.Checks? ==> s.cur == Some(s.run) && s.run < NPROC && s.procs[s.run] == RUNABLE
    ensures Me(s).pc.SwitchOut? ==> s.cur == Some(s.run) && s.run < NPROC && Parked(SCHED, s.threads[SCHED])
    ensures Me(s).pc.SwitchTo? ==> Me(s).pc.i < NPROC && Parked(Me(s).pc.i, s.threads[Me(s).pc.i])
  {
    hide FlagsOk, Depth, HoldsPtable, HoldsCons, Parked, OwnOk;
  }

  lemma CpuStepPush(s: State, begin: Option<Task>)
    requires Inv(s) && Pushing(Me(s).pc)
    ensures Shape(Execute(s, begin)) && CpuOk(Execute(s, begin))
  {
    CpuFacts(s);
    hide Execute, CpuOk, StatesOk, ParkedOk, Parked, OwnOk, PidsOk;
    var pc := Me(s).pc;
    if pc.Code? || pc.Setup? || pc.Trapret? {
      CpuCode(s, begin);
    } else if pc.TimerTest? || pc.Iret? {
      CpuHandler(s, begin);
    } else if pc.ReadFlags? || pc.Cli? {
      CpuReadFlags(s, begin);
    } else {
      CpuCount(s, begin);
    }
  }

  lemma CpuStepLock(s: State, begin: Option<Task>)
    requires Inv(s) && Locking(Me(s).pc)
    ensures Shape(Execute(s, begin)) && CpuOk(Execute(s, begin))
  {
    CpuFacts(s);
    hide Execute, CpuOk, StatesOk, ParkedOk, Parked, OwnOk, PidsOk;
    var pc := Me(s).pc;
    if pc.TestHolding? || pc.Xchg? {
      CpuAcquire(s, begin);
    } else if pc.Leave? || pc.Unlock? {
      CpuRelease(s, begin);
    } else if pc.PopTest? || pc.PopCount? {
      CpuPop(s, begin);
    } else {
      CpuSti(s, begin);
    }
  }

  lemma CpuStepSwitch(s: State, begin: Option<Task>)
    requires Inv(s) && !Pushing(Me(s).pc) && !Locking(Me(s).pc)
    ensures Shape(Execute(s, begin)) && CpuOk(Execute(s, begin))
  {
    CpuFacts(s);
    hide Execute, CpuOk, StatesOk, ParkedOk, Parked, OwnOk, PidsOk;
    var pc := Me(s).pc;
    if pc.Critical? && (pc.t.Allocate? || pc.t.Publish?) {
      CpuBody(s, begin);
    } else if pc.Critical? {
      CpuBodyOther(s, begin);
    } else if pc.Checks? || pc.Resume? {
      CpuChecks(s, begin);
    } else if pc.SwitchOut? {
      CpuOut(s, begin);
    } else if pc.Scan? {
      CpuScan(s, begin);
    } else if pc.Back? {
      CpuBack(s, begin);
    } else if pc.SwitchTo? {
      CpuTo(s, begin);
    } else {
      CpuChosen(s, begin);
    }
  }

  lemma CpuStep(s: State, begin: Option<Task>)
    requires Inv(s)
    ensures Shape(Execute(s, begin)) && CpuOk(Execute(s, begin))
  {
    hide Execute, CpuOk, ParkedOk, StatesOk, OwnOk, PidsOk, Pushing, Locking;
    if Pushing(Me(s).pc) {
      CpuStepPush(s, begin);
    } else if Locking(Me(s).pc) {
      CpuStepLock(s, begin);
    } else {
      CpuStepSwitch(s, begin);
    }
  }

  ghost predicate DataOk(s: State)
    requires s.run < |s.threads|
  {
    StatesOk(s) && OwnOk(s) && PidsOk(s)
  }

  lemma DataStep(s: State, begin: Option<Task>)
    requires Inv(s) && Shape(Execute(s, begin))
    ensures DataOk(Execute(s, begin))
  {
    hide Execute, CpuOk, StatesOk, OwnOk, Quiet, Took, ParkedOk;
    var r := Execute(s, begin);
    match Me(s).pc
    case Critical(t) =>
      if t.Allocate? {
        AllocateTakes(s, begin);
        var p := FirstUnused(s.procs);
        if p < NPROC {
          TookStates(s, r, p);
          TookOwn(s, r, p);
          TookPids(s, r, p);
        } else {
          QuietKeeps(s, r);
        }
      } else if t.Publish? {
        StatesPublish(s, begin);
        OwnPublish(s, begin);
        PidsPublish(s, begin);
      } else if t.Yield? {
        StatesYield(s, begin);
        OwnYield(s, begin);
        PidsYield(s, begin);
      } else {
        QuietCritical(s, begin);
        QuietKeeps(s, r);
      }
    case SwitchOut(_, _) =>
      StatesOut(s, begin);
      OwnOut(s, begin);
      PidsOut(s, begin);
    case SwitchTo(_, _) =>
      StatesTo(s, begin);
      OwnTo(s, begin);
      PidsTo(s, begin);
    case Scan(_, i) =>
      if i < NPROC && s.procs[i] == RUNABLE {
        StatesFound(s, begin);
        OwnFound(s, begin);
        PidsFound(s, begin);
      } else {
        QuietScan(s, begin);
        QuietKeeps(s, r);
      }
    case Chosen(_, _) =>
      StatesChosen(s, begin);
      OwnChosen(s, begin);
      PidsChosen(s, begin);
    case SetRun(_, _) =>
      StatesSetRun(s, begin);
      OwnSetRun(s, begin);
      PidsSetRun(s, begin);
    case Checks(_) =>
      QuietChecks(s, begin);
      QuietKeeps(s, r);
    case Resume(_, _) =>
      QuietChecks(s, begin);
      QuietKeeps(s, r);
    case Back(_, _) =>
      QuietBack(s, begin);
      QuietKeeps(s, r);
    case _ =>
      QuietStep(s, begin);
      QuietKeeps(s, r);
  }

  /** Every step of every thread, and every interrupt, keeps the invariant. */
  lemma StepKeeps(s: State, c: Choice)
    requires Inv(s)
    ensures Inv(Step(s, c))
  {
    hide Execute, Interrupt, CpuOk, StatesOk, OwnOk, PidsOk, ParkedOk, Quiet;
    match c
    case Go(begin) =>
      CpuStep(s, begin);
      DataStep(s, begin);
      SwitchesSelf(s);
      ParkedStep(s, begin);
    case TimerIrq =>
      InterruptKeeps(s, TimerTest);
    case KeyIrq =>
      InterruptKeeps(s, ReadFlags(Console));
  }

  lemma SwitchesSelf(s: State)
    requires Inv(s)
    ensures Me(s).pc.SwitchOut? ==> s.cur == Some(s.run) && s.run < NPROC
  {
    hide FlagsOk, Depth, HoldsPtable, HoldsCons;
  }

  lemma InterruptKeeps(s: State, handler: Pc)
    requires Inv(s) && (handler == TimerTest || handler == ReadFlags(Console))
    ensures Inv(Interrupt(s, handler))
  {
    hide CpuOk, StatesOk, OwnOk, PidsOk;
    CpuInterrupt(s, handler);
    QuietInterrupt(s, handler);
    QuietKeeps(s, Interrupt(s, handler));
  }
}
