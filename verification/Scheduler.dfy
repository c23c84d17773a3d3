// kernel/scheduler.c, kernel/spinlock.c, kernel/process.c and drivers/timer.c as one step system:
// one CPU, the scheduler's thread and NPROC process threads, statement by statement, with an
// interrupt possible before any statement while the interrupt flag is set.

module Scheduler {
  import opened Machine

  const NPROC: nat := 64
  const SCHED: nat := NPROC   // the boot and scheduler thread

  datatype PState = UNUSED | EMBRYO | RUNABLE | RUNNING

  /** Why a thread is inside pushcli/acquire/release/popcli. */
  datatype Task =
    | Console                     // console_put: the cons lock
    | Allocate                    // alloc_process looking for a slot
    | Allocated(p: nat)           // alloc_process releasing, slot p found
    | Publish(p: nat)             // setting slot p RUNABLE
    | Plain                       // releasing ptable.lock, nothing more to do
    | Yield(entry: bool)          // yield_cpu, called with this interrupt flag
    | Fork                        // forkret
    | Schedule(entry: bool)       // the scheduler's own acquire and release
    | Uvm(entry: bool, i: nat)    // switch_to_uvm's pushcli and popcli for process i

  /** The statement a thread is about to execute. */
  datatype Pc =
    | Code                        // code outside this model
    | Setup(p: nat)               // filling in the process allocated in slot p
    | Trapret                     // about to return to user mode for the first time
    | TimerTest                   // timer_handler
    | Iret                        // an interrupt handler is done
    | ReadFlags(t: Task)          // pushcli: eflags = readeflags()
    | Cli(t: Task, eflags: bool)  // pushcli: cli()
    | SaveFlag(t: Task, eflags: bool)  // pushcli: if(ncli == 0) intena = eflags & FL_IF
    | Count(t: Task)              // pushcli: ncli += 1
    | TestHolding(t: Task)        // acquire: if(holding(lock)) panic
    | Xchg(t: Task)               // acquire: xchg
    | Critical(t: Task)           // the guarded statements
    | Leave(t: Task)              // release: if(!holding(lock)) panic
    | Unlock(t: Task)             // release: locked = 0
    | PopTest(t: Task)            // popcli: if(eflags & FL_IF) panic
    | PopCount(t: Task)           // popcli: if(--ncli < 0) panic
    | PopSti(t: Task)             // popcli: if(ncli == 0 && intena) sti()
    | Checks(entry: bool)         // goto_scheduler's tests
    | SwitchOut(entry: bool, intena: bool)  // switch_context to the scheduler
    | Resume(entry: bool, intena: bool)     // back from it: curcpu.intena = intena
    | Scan(entry: bool, i: nat)   // scheduler: test of process i
    | Chosen(entry: bool, i: nat) // scheduler: curprocess = proc
    | SetRun(entry: bool, i: nat) // scheduler: state = RUNNING
    | SwitchTo(entry: bool, i: nat)  // scheduler: switch_context to process i
    | Back(entry: bool, i: nat)   // scheduler: back from it

  /** A thread's current statement, and the one its interrupt handler will return to. */
  datatype Thread = Thread(pc: Pc, saved: Option<Pc>)

  datatype Lock = Ptable | Cons

  datatype LockEvent = Acquired(thread: nat) | Released(thread: nat)

  datatype State = State(
    flag: bool,                   // IF
    ncli: int,
    intena: bool,
    ptable: bool,                 // ptable.lock.locked
    cons: bool,                   // cons.locked
    cur: Option<nat>,             // curcpu.curprocess
    procs: seq<PState>,
    pids: seq<int>,
    nextpid: int,
    threads: seq<Thread>,
    run: nat,                     // whose stack the CPU is on
    panicked: bool,
    dispatches: seq<nat>,         // history: processes set RUNNING, in order
    locking: seq<LockEvent>,      // history of ptable.lock
    handed: Option<bool>)         // intena at the last switch into the scheduler since it took the lock

  datatype Choice =
    | Go(begin: Option<Task>)     // the running thread executes a statement; `begin` is what it calls from Code
    | TimerIrq
    | KeyIrq

  function Me(s: State): Thread
    requires s.run < |s.threads|
  {
    s.threads[s.run]
  }

  function Goto(s: State, pc: Pc): State
    requires s.run < |s.threads|
  {
    s.(threads := s.threads[s.run := Me(s).(pc := pc)])
  }

  function Panic(s: State): State {
    s.(panicked := true)
  }

  function LockOf(t: Task): Lock {
    if t.Console? then Cons else Ptable
  }

  predicate Held(s: State, l: Lock) {
    if l.Ptable? then s.ptable else s.cons
  }

  /** What a thread may call from code outside the model; only processes yield, only the scheduler schedules. */
  predicate MayBegin(run: nat, t: Task, flag: bool) {
    match t
    case Console => true
    case Allocate => true
    case Yield(e) => run < NPROC && e == flag
    case Schedule(e) => run == SCHED && e == flag
    case _ => false
  }

  /** Where a thread goes when it has finished with t. */
  function After(t: Task, inHandler: bool): Pc {
    match t
    case Allocated(p) => Setup(p)
    case Fork => Trapret
    case Uvm(e, i) => SwitchTo(e, i)
    case _ => if inHandler then Iret else Code
  }

  function FirstUnused(procs: seq<PState>, i: nat := 0): (k: nat)
    ensures k <= |procs| || k == i
    ensures i <= |procs| ==> i <= k <= |procs| && (k < |procs| ==> procs[k] == UNUSED)
    ensures forall j :: i <= j < k && j < |procs| ==> procs[j] != UNUSED
    decreases |procs| - i
  {
    if i >= |procs| || procs[i] == UNUSED then i else FirstUnused(procs, i + 1)
  }

  /** The guarded statements of each critical section. */
  function Body(s: State, t: Task): State
    requires s.run < |s.threads|
  {
    match t
    case Allocate =>
      var p := FirstUnused(s.procs);
      if p < |s.procs| && p < |s.pids| then
        Goto(s.(procs := s.procs[p := EMBRYO], pids := s.pids[p := s.nextpid], nextpid := s.nextpid + 1), Leave(Allocated(p)))
      else Goto(s, Leave(Plain))
    case Publish(p) =>
      if p < |s.procs| then Goto(s.(procs := s.procs[p := RUNABLE]), Leave(Plain)) else Panic(s)
    case Yield(e) =>
      if s.cur.Some? && s.cur.value < |s.procs| then Goto(s.(procs := s.procs[s.cur.value := RUNABLE]), Checks(e))
      else Panic(s)
    case Schedule(e) => Goto(s.(handed := None), Scan(e, 0))
    case _ => Goto(s, Leave(t))
  }

  /** One statement of the running thread. */
  function Execute(s: State, begin: Option<Task>): State
    requires s.run < |s.threads|
  {
    match Me(s).pc
    case Code =>
      if begin.Some? && MayBegin(s.run, begin.value, s.flag) then Goto(s, ReadFlags(begin.value)) else s
    case Setup(p) => Goto(s, ReadFlags(Publish(p)))
    case Trapret => Goto(s.(flag := true), Code)
    case TimerTest =>
      if s.cur.Some? && s.cur.value < |s.procs| && s.procs[s.cur.value] == RUNNING
      then Goto(s, ReadFlags(Yield(s.flag))) else Goto(s, Iret)
    case Iret =>
      if Me(s).saved.None? then Panic(s)
      else s.(flag := true, threads := s.threads[s.run := Thread(Me(s).saved.value, None)])
    case ReadFlags(t) => Goto(s, Cli(t, s.flag))
    case Cli(t, e) => Goto(s.(flag := false), SaveFlag(t, e))
    case SaveFlag(t, e) => Goto(if s.ncli == 0 then s.(intena := e) else s, Count(t))
    case Count(t) => Goto(s.(ncli := s.ncli + 1), if t.Uvm? then PopTest(t) else TestHolding(t))
    case TestHolding(t) => if Held(s, LockOf(t)) then Panic(s) else Goto(s, Xchg(t))
    case Xchg(t) =>
      if Held(s, LockOf(t)) then s   // the xchg loop spins
      else if LockOf(t).Cons? then Goto(s.(cons := true), Critical(t))
      else Goto(s.(ptable := true, locking := s.locking + [Acquired(s.run)]), Critical(t))
    case Critical(t) => Body(s, t)
    case Leave(t) => if !Held(s, LockOf(t)) then Panic(s) else Goto(s, Unlock(t))
    case Unlock(t) =>
      if LockOf(t).Cons? then Goto(s.(cons := false), PopTest(t))
      else Goto(s.(ptable := false, locking := s.locking + [Released(s.run)]), PopTest(t))
    case PopTest(t) => if s.flag then Panic(s) else Goto(s, PopCount(t))
    case PopCount(t) => if s.ncli - 1 < 0 then Panic(s) else Goto(s.(ncli := s.ncli - 1), PopSti(t))
    case PopSti(t) =>
      var r := if s.ncli == 0 && s.intena then s.(flag := true) else s;
      Goto(r, After(t, Me(s).saved.Some?))
    case _ => Switching(s)
  }

  /** goto_scheduler and the scheduler's loop. */
  function Switching(s: State): State
    requires s.run < |s.threads|
  {
    match Me(s).pc
    case Checks(e) =>
      if !s.ptable || s.ncli != 1 || s.flag || s.cur.None? || s.cur.value >= |s.procs| || s.procs[s.cur.value] == RUNNING
      then Panic(s)
      else Goto(s, SwitchOut(e, s.intena))
    case SwitchOut(e, v) =>
      // saves this stack in the current process's context and continues the scheduler's
      if s.cur.None? || s.cur.value >= |s.threads| || SCHED >= |s.threads| then Panic(s)
      else s.(threads := s.threads[s.cur.value := Me(s).(pc := Resume(e, v))], run := SCHED, handed := Some(s.intena))
    case Resume(e, v) => Goto(s.(intena := v), Leave(Yield(e)))
    case Scan(e, i) =>
      if i >= NPROC || i >= |s.procs| then Goto(s, Leave(Schedule(e)))
      else if s.procs[i] != RUNABLE then Goto(s, Scan(e, i + 1))
      else Goto(s, Chosen(e, i))
    case Chosen(e, i) => Goto(s.(cur := Some(i)), SetRun(e, i))
    case SetRun(e, i) =>
      if i >= |s.procs| then Panic(s)
      else Goto(s.(procs := s.procs[i := RUNNING], dispatches := s.dispatches + [i]), ReadFlags(Uvm(e, i)))
    case SwitchTo(e, i) =>
      if i >= |s.threads| then Panic(s)
      else Goto(s, Back(e, i)).(run := i)
    case Back(e, i) => Goto(s, Scan(e, i + 1))
    case _ => s
  }

  /** An interrupt: masked while IF is 0; the gate clears IF. A handler interrupted in its turn would
      need a second return address; that this never happens is part of what is proved. */
  function Interrupt(s: State, handler: Pc): State
    requires s.run < |s.threads|
  {
    if !s.flag then s
    else if Me(s).saved.Some? then Panic(s)
    else s.(flag := false, threads := s.threads[s.run := Thread(handler, Some(Me(s).pc))])
  }

  function Step(s: State, c: Choice): State {
    if s.panicked || s.run >= |s.threads| then s
    else match c
      case Go(begin) => Execute(s, begin)
      case TimerIrq => Interrupt(s, TimerTest)
      case KeyIrq => Interrupt(s, ReadFlags(Console))
  }

  /** Interrupts on, no lock held, no process yet: kern_bootstrap after sti(). */
  function Boot(): State {
    State(true, 0, false, false, false, None, seq(NPROC, _ => UNUSED), seq(NPROC, _ => 0), 1,
          seq(NPROC, _ => Thread(Leave(Fork), None)) + [Thread(Code, None)], SCHED, false, [], [], None)
  }

  function Exec(s: State, cs: seq<Choice>): State {
    if cs == [] then s else Step(Exec(s, cs[..|cs| - 1]), cs[|cs| - 1])
  }
}
