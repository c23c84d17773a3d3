// kernel/spinlock.c, alloc_process of kernel/process.c and the scan of kernel/scheduler.c as the C code
// has them, on state changed in place; each is what an uninterrupted stretch of the step system does.

module Spinlock {
  import opened Machine
  import opened Scheduler

  // ---- pushcli, popcli, acquire, release ----

  /** The interrupt flag, and struct cpu's ncli and intena. */
  datatype Flags = Flags(flag: bool, ncli: int, intena: bool)

  function Pushed(c: Flags): Flags {
    Flags(false, c.ncli + 1, if c.ncli == 0 then c.flag else c.intena)
  }

  predicate MayPop(c: Flags) {
    !c.flag && c.ncli >= 1
  }

  function Popped(c: Flags): Flags {
    Flags(c.flag || (c.ncli == 1 && c.intena), c.ncli - 1, c.intena)
  }

  class Cpu {
    var flag: bool
    var ncli: int
    var intena: bool

    function State(): Flags
      reads this
    {
      Flags(flag, ncli, intena)
    }

    constructor (enabled: bool)
      ensures State() == Flags(enabled, 0, false)
    {
      flag, ncli, intena := enabled, 0, false;
    }

    method Pushcli()
      modifies this
      ensures State() == Pushed(old(State()))
      ensures !flag && ncli == old(ncli) + 1 && intena == if old(ncli) == 0 then old(flag) else old(intena)
    {
      var eflags := flag;
      flag := false;
      if ncli == 0 {
        intena := eflags;
      }
      ncli := ncli + 1;
    }

    /** popcli; false is one of its panics. */
    method Popcli() returns (ok: bool)
      modifies this
      ensures ok <==> MayPop(old(State()))
      ensures ok ==> State() == Popped(old(State()))
      ensures ok <==> !old(flag) && old(ncli) >= 1
      ensures ok ==> ncli == old(ncli) - 1 && intena == old(intena) && (flag <==> ncli == 0 && intena)
    {
      if flag {
        return false;
      }
      ncli := ncli - 1;
      if ncli < 0 {
        return false;
      }
      if ncli == 0 && intena {
        flag := true;
      }
      ok := true;
    }
  }

  class SpinLock {
    var locked: bool

    constructor ()
      ensures !locked
    {
      locked := false;
    }

    /** acquire; false is its panic. With the lock free and interrupts off, the exchange succeeds at once. */
    method Acquire(cpu: Cpu) returns (ok: bool)
      modifies this, cpu
      ensures cpu.State() == Pushed(old(cpu.State()))
      ensures ok == !old(locked) && locked
    {
      cpu.Pushcli();
      if locked {
        return false;
      }
      locked := true;
      ok := true;
    }

    /** release; false is its panic or popcli's. */
    method Release(cpu: Cpu) returns (ok: bool)
      modifies this, cpu
      ensures ok <==> old(locked) && !old(cpu.flag) && old(cpu.ncli) >= 1
      ensures ok ==> !locked && cpu.State() == Popped(old(cpu.State()))
    {
      if !locked {
        return false;
      }
      locked := false;
      ok := cpu.Popcli();
    }
  }

  // ---- Nesting ----

  datatype Op = Push | Pop

  function Depth(w: seq<Op>): int {
    if w == [] then 0 else Depth(w[..|w| - 1]) + if w[|w| - 1].Push? then 1 else -1
  }

  /** No prefix pops more than it pushes. */
  predicate Nested(w: seq<Op>) {
    w == [] || (Nested(w[..|w| - 1]) && Depth(w) >= 0)
  }

  /** None when a popcli panics. */
  function Perform(c: Flags, w: seq<Op>): Option<Flags> {
    if w == [] then Some(c)
    else match Perform(c, w[..|w| - 1])
      case None => None
      case Some(d) => if w[|w| - 1].Push? then Some(Pushed(d)) else if MayPop(d) then Some(Popped(d)) else None
  }

  /** From interrupts on or off and no nesting, a run of pushcli and popcli never panics if and only if it
      is nested; inside it interrupts stay off, and wherever it is balanced the flag is the one it began with. */
  lemma {:induction false} NestingRestores(c: Flags, w: seq<Op>)
    requires c.ncli == 0
    ensures Perform(c, w).Some? <==> Nested(w)
    ensures Nested(w) ==>
      var d := Perform(c, w).value;
      d.ncli == Depth(w) && if Depth(w) > 0 then !d.flag && d.intena == c.flag else d.flag == c.flag
  {
    if w != [] {
      NestingRestores(c, w[..|w| - 1]);
    }
  }

  // ---- The same, statement by statement ----

  function FlagsOf(s: State): Flags {
    Flags(s.flag, s.ncli, s.intena)
  }

  /** One statement of the running thread. */
  function Next(s: State): State {
    Step(s, Go(None))
  }

  /** n statements of the running thread with no interrupt in between. */
  function Quiet(s: State, n: nat): State
    decreases n
  {
    if n == 0 then s else Quiet(Next(s), n - 1)
  }

  lemma {:induction false} QuietIsRun(s: State, n: nat)
    ensures Quiet(s, n) == Exec(s, seq(n, _ => Go(None)))
    decreases n
  {
    if n > 0 {
      QuietMore(s, n - 1);
      QuietIsRun(s, n - 1);
      var cs := seq(n, _ => Go(None));
      assert cs[..n - 1] == seq(n - 1, _ => Go(None));
    }
  }

  lemma {:induction false} QuietMore(s: State, n: nat)
    ensures Quiet(s, n + 1) == Next(Quiet(s, n))
    decreases n
  {
    hide Next;
    if n > 0 {
      QuietMore(Next(s), n - 1);
    }
  }

  predicate Running(s: State) {
    !s.panicked && s.run < |s.threads|
  }

  /** s with the running thread at pc and these flags. */
  function At(s: State, c: Flags, pc: Pc): State
    requires s.run < |s.threads|
  {
    Goto(s.(flag := c.flag, ncli := c.ncli, intena := c.intena), pc)
  }

  lemma AtHere(s: State)
    requires s.run < |s.threads|
    ensures At(s, FlagsOf(s), Me(s).pc) == s
  {
  }

  lemma CliSteps(s: State, t: Task, c: Flags)
    requires Running(s)
    ensures Next(At(s, c, ReadFlags(t))) == At(s, c, Cli(t, c.flag))
    ensures Next(At(s, c, Cli(t, c.flag))) == At(s, c.(flag := false), SaveFlag(t, c.flag))
  {
    hide Body, Switching;
  }

  lemma CountSteps(s: State, t: Task, c: Flags, eflags: bool)
    requires Running(s)
    ensures Next(At(s, c, SaveFlag(t, eflags))) == At(s, if c.ncli == 0 then c.(intena := eflags) else c, Count(t))
    ensures Next(At(s, c, Count(t))) == At(s, c.(ncli := c.ncli + 1), if t.Uvm? then PopTest(t) else TestHolding(t))
  {
    hide Body, Switching;
  }

  lemma PopSteps(s: State, t: Task, c: Flags)
    requires Running(s) && MayPop(c)
    ensures Next(At(s, c, PopTest(t))) == At(s, c, PopCount(t))
    ensures Next(At(s, c, PopCount(t))) == At(s, c.(ncli := c.ncli - 1), PopSti(t))
  {
    hide Body, Switching;
  }

  lemma StiStep(s: State, t: Task, c: Flags)
    requires Running(s) && !c.flag
    ensures Next(At(s, c, PopSti(t))) == At(s, c.(flag := c.ncli == 0 && c.intena), After(t, Me(s).saved.Some?))
  {
    hide Body, Switching, After;
  }

  lemma QuietFour(s: State)
    ensures Quiet(s, 2) == Next(Next(s))
    ensures Quiet(s, 3) == Next(Next(Next(s))) && Quiet(s, 4) == Next(Next(Next(Next(s))))
  {
    hide Next;
    assert Quiet(s, 1) == Next(s);
    QuietMore(s, 1);
    QuietMore(s, 2);
    QuietMore(s, 3);
  }

  /** pushcli, statement by statement, does what Cpu.Pushcli does. */
  lemma PushcliSteps(s: State, t: Task)
    requires Running(s) && Me(s).pc == ReadFlags(t)
    ensures Quiet(s, 4) == At(s, Pushed(FlagsOf(s)), if t.Uvm? then PopTest(t) else TestHolding(t))
  {
    hide At, Next, Quiet;
    var c := FlagsOf(s);
    AtHere(s);
    CliSteps(s, t, c);
    CountSteps(s, t, c.(flag := false), c.flag);
    CountSteps(s, t, Flags(false, c.ncli, if c.ncli == 0 then c.flag else c.intena), c.flag);
    QuietFour(s);
  }

  /** popcli, statement by statement, does what Cpu.Popcli does. */
  lemma PopcliSteps(s: State, t: Task)
    requires Running(s) && Me(s).pc == PopTest(t) && MayPop(FlagsOf(s))
    ensures Quiet(s, 3) == At(s, Popped(FlagsOf(s)), After(t, Me(s).saved.Some?))
  {
    hide At, Next, Quiet, After;
    var c := FlagsOf(s);
    AtHere(s);
    PopSteps(s, t, c);
    StiStep(s, t, c.(ncli := c.ncli - 1));
    QuietFour(s);
  }

  function Taken(s: State, l: Lock): State {
    if l.Cons? then s.(cons := true) else s.(ptable := true, locking := s.locking + [Acquired(s.run)])
  }

  function Dropped(s: State, l: Lock): State {
    if l.Cons? then s.(cons := false) else s.(ptable := false, locking := s.locking + [Released(s.run)])
  }

  /** acquire goes on after pushcli as SpinLock.Acquire does: into the critical section if the lock is free, else panic. */
  lemma AcquireSteps(s: State, t: Task)
    requires Running(s) && Me(s).pc == TestHolding(t)
    ensures Held(s, LockOf(t)) ==> Next(s).panicked
    ensures !Held(s, LockOf(t)) ==>
      Quiet(s, 2) == At(Taken(s, LockOf(t)), FlagsOf(s), Critical(t)) && Held(Quiet(s, 2), LockOf(t))
  {
    QuietFour(s);
    hide Body, Switching, Quiet;
    if !Held(s, LockOf(t)) {
      assert Next(s) == Goto(s, Xchg(t));
      assert Next(Goto(s, Xchg(t))) == At(Taken(s, LockOf(t)), FlagsOf(s), Critical(t));
    }
  }

  /** release goes on to popcli as SpinLock.Release does: with the lock dropped, or panic if it is not held. */
  lemma ReleaseSteps(s: State, t: Task)
    requires Running(s) && Me(s).pc == Leave(t)
    ensures !Held(s, LockOf(t)) ==> Next(s).panicked
    ensures Held(s, LockOf(t)) ==>
      Quiet(s, 2) == At(Dropped(s, LockOf(t)), FlagsOf(s), PopTest(t)) && !Held(Quiet(s, 2), LockOf(t))
  {
    hide Quiet;
    LeaveStep(s, t);
    if Held(s, LockOf(t)) {
      UnlockStep(s, t);
      hide Next;
      QuietFour(s);
    }
  }

  lemma LeaveStep(s: State, t: Task)
    requires Running(s) && Me(s).pc == Leave(t)
    ensures if Held(s, LockOf(t)) then Next(s) == Goto(s, Unlock(t)) else Next(s).panicked
  {
    hide Body, Switching;
  }

  lemma UnlockStep(s: State, t: Task)
    requires Running(s) && Me(s).pc == Leave(t)
    ensures Next(Goto(s, Unlock(t))) == At(Dropped(s, LockOf(t)), FlagsOf(s), PopTest(t))
  {
    hide Body, Switching;
  }

  // ---- The process table ----

  class Table {
    const procs: array<PState>
    const pids: array<int>
    var nextpid: int
    var curprocess: Option<nat>

    ghost predicate Valid()
      reads this, procs, pids
    {
      procs.Length == NPROC && pids.Length == NPROC
    }

    /** What a state of the step system says about the table. */
    ghost predicate Shows(s: State)
      reads this, procs, pids
    {
      procs[..] == s.procs && pids[..] == s.pids && nextpid == s.nextpid && curprocess == s.cur
    }

    constructor ()
      ensures Valid() && Shows(Boot())
    {
      procs := new PState[NPROC](_ => UNUSED);
      pids := new int[NPROC](_ => 0);
      nextpid := 1;
      curprocess := None;
    }

    /** The loop of alloc_process up to the release, for a thread in its critical section. */
    method AllocProcess(ghost s: State) returns (p: Option<nat>)
      requires Valid() && Running(s) && Shows(s)
      modifies this`nextpid, procs, pids
      ensures Shows(Body(s, Allocate))
      ensures Me(Body(s, Allocate)).pc == Leave(if p.Some? then Allocated(p.value) else Plain)
      ensures p.None? <==> UNUSED !in old(procs[..])
      ensures p.None? ==> procs[..] == old(procs[..]) && pids[..] == old(pids[..]) && nextpid == old(nextpid)
      ensures p.Some? ==>
        && p.value < NPROC && old(procs[p.value]) == UNUSED && (forall j :: 0 <= j < p.value ==> old(procs[j]) != UNUSED)
        && procs[..] == old(procs[..])[p.value := EMBRYO]
        && pids[..] == old(pids[..])[p.value := old(nextpid)] && nextpid == old(nextpid) + 1
    {
      var i := 0;
      while i < NPROC
        invariant 0 <= i <= NPROC && Shows(s)
        invariant forall j :: 0 <= j < i ==> procs[j] != UNUSED
      {
        if procs[i] == UNUSED {
          FirstUnusedIs(procs[..], i);
          procs[i] := EMBRYO;
          pids[i] := nextpid;
          nextpid := nextpid + 1;
          return Some(i);
        }
        i := i + 1;
      }
      FirstUnusedIs(procs[..], NPROC);
      p := None;
    }

    /** The scan of scheduler() from process i on, up to the state change of the process it chooses. */
    method Choose(from: nat) returns (p: Option<nat>)
      requires Valid() && from <= NPROC
      modifies this`curprocess, procs
      ensures p == FirstRunable(old(procs[..]), from)
      ensures procs[..] == if p.Some? then old(procs[..])[p.value := RUNNING] else old(procs[..])
      ensures curprocess == if p.Some? then p else old(curprocess)
    {
      var i := from;
      while i < NPROC
        invariant from <= i <= NPROC && procs[..] == old(procs[..]) && curprocess == old(curprocess)
        invariant FirstRunable(procs[..], from) == FirstRunable(procs[..], i)
      {
        if procs[i] != RUNABLE {
          i := i + 1;
          continue;
        }
        curprocess := Some(i);
        procs[i] := RUNNING;
        return Some(i);
      }
      p := None;
    }
  }

  lemma FirstUnusedIs(procs: seq<PState>, k: nat)
    requires k <= |procs| && (k < |procs| ==> procs[k] == UNUSED) && forall j :: 0 <= j < k ==> procs[j] != UNUSED
    ensures FirstUnused(procs) == k
  {
  }

  /** The process the scan stops at when it goes on from process i. */
  function FirstRunable(procs: seq<PState>, i: nat): (p: Option<nat>)
    ensures p.Some? ==> i <= p.value < |procs| && procs[p.value] == RUNABLE
    ensures forall j :: i <= j < |procs| && (p.Some? ==> j < p.value) ==> procs[j] != RUNABLE
    decreases |procs| - i
  {
    if i >= |procs| then None else if procs[i] == RUNABLE then Some(i) else FirstRunable(procs, i + 1)
  }

  lemma ScanOut(s: State, e: bool, i: nat)
    requires Running(s) && i == NPROC && Me(s).pc == Scan(e, i)
    ensures Next(s) == Goto(s, Leave(Schedule(e)))
  {
    hide Body;
  }

  lemma ScanPast(s: State, e: bool, i: nat)
    requires Running(s) && i < NPROC && i < |s.procs| && s.procs[i] != RUNABLE && Me(s).pc == Scan(e, i)
    ensures Next(s) == Goto(s, Scan(e, i + 1))
  {
    hide Body;
  }

  function Started(s: State, p: nat): State
    requires p < |s.procs|
  {
    s.(cur := Some(p), procs := s.procs[p := RUNNING], dispatches := s.dispatches + [p])
  }

  lemma ScanHit(s: State, e: bool, i: nat)
    requires Running(s) && i < NPROC && i < |s.procs| && s.procs[i] == RUNABLE && Me(s).pc == Scan(e, i)
    ensures Quiet(s, 3) == Goto(Started(s, i), ReadFlags(Uvm(e, i)))
  {
    hide Next, Quiet, Started;
    QuietFour(s);
    assert Next(s) == Goto(s, Chosen(e, i)) by {
      ScanFound(s, e, i);
    }
    ChosenStep(s, e, i);
    SetRunStep(s, e, i);
  }

  lemma ScanFound(s: State, e: bool, i: nat)
    requires Running(s) && i < NPROC && i < |s.procs| && s.procs[i] == RUNABLE && Me(s).pc == Scan(e, i)
    ensures Next(s) == Goto(s, Chosen(e, i))
  {
    hide Body;
  }

  lemma ChosenStep(s: State, e: bool, i: nat)
    requires Running(s)
    ensures Next(Goto(s, Chosen(e, i))) == Goto(s.(cur := Some(i)), SetRun(e, i))
  {
    hide Body;
  }

  lemma SetRunStep(s: State, e: bool, i: nat)
    requires Running(s) && i < |s.procs|
    ensures Next(Goto(s.(cur := Some(i)), SetRun(e, i))) == Goto(Started(s, i), ReadFlags(Uvm(e, i)))
  {
    hide Body;
  }

  /** The scan, statement by statement: an uninterrupted scheduler runs into the process Table.Choose gives,
      or out of its loop when there is none. */
  lemma {:induction false} ScanSteps(s: State, e: bool, i: nat)
    requires Running(s) && |s.procs| == NPROC && i <= NPROC && Me(s).pc == Scan(e, i)
    ensures FirstRunable(s.procs, i).None? ==> Quiet(s, NPROC - i + 1) == Goto(s, Leave(Schedule(e)))
    ensures FirstRunable(s.procs, i).Some? ==>
      var p := FirstRunable(s.procs, i).value;
      Quiet(s, p - i + 3)
        == Goto(Started(s, p), ReadFlags(Uvm(e, p)))
    decreases NPROC - i
  {
    hide Next, Quiet, Started, FirstRunable;
    if i == NPROC {
      OutNow(s, e, i);
    } else if s.procs[i] == RUNABLE {
      HitNow(s, e, i);
    } else {
      var r := Goto(s, Scan(e, i + 1));
      PastNow(s, e, i, r);
      hide Goto, Me;
      ScanSteps(r, e, i + 1);
      if FirstRunable(s.procs, i).Some? {
        PastThenHit(s, e, i, FirstRunable(s.procs, i).value);
      } else {
        PastThenOut(s, e, i);
      }
    }
  }

  lemma OutNow(s: State, e: bool, i: nat)
    requires Running(s) && |s.procs| == NPROC == i && Me(s).pc == Scan(e, i)
    ensures FirstRunable(s.procs, i).None? && Quiet(s, NPROC - i + 1) == Goto(s, Leave(Schedule(e)))
  {
    ScanOut(s, e, i);
    assert Quiet(s, 1) == Quiet(Next(s), 0);
  }

  lemma HitNow(s: State, e: bool, i: nat)
    requires Running(s) && i < |s.procs| == NPROC && Me(s).pc == Scan(e, i) && s.procs[i] == RUNABLE
    ensures FirstRunable(s.procs, i) == Some(i) && Quiet(s, 3) == Goto(Started(s, i), ReadFlags(Uvm(e, i)))
  {
    hide Next, Quiet, Started;
    ScanHit(s, e, i);
  }

  lemma PastNow(s: State, e: bool, i: nat, r: State)
    requires Running(s) && i < |s.procs| == NPROC && Me(s).pc == Scan(e, i) && s.procs[i] != RUNABLE
    requires r == Goto(s, Scan(e, i + 1))
    ensures Next(s) == r && Running(r) && Me(r).pc == Scan(e, i + 1) && r.procs == s.procs
    ensures FirstRunable(s.procs, i) == FirstRunable(s.procs, i + 1)
  {
    ScanPast(s, e, i);
    hide Next;
    FirstFrom(s.procs, i);
  }

  lemma PastThenOut(s: State, e: bool, i: nat)
    requires s.run < |s.threads| && i < NPROC && Next(s) == Goto(s, Scan(e, i + 1))
    requires var r := Goto(s, Scan(e, i + 1)); Quiet(r, NPROC - i) == Goto(r, Leave(Schedule(e)))
    ensures Quiet(s, NPROC - i + 1) == Goto(s, Leave(Schedule(e)))
  {
    assert Quiet(s, NPROC - i + 1) == Quiet(Next(s), NPROC - i);
    hide Quiet, Next;
    GotoTwice(s, Scan(e, i + 1), Leave(Schedule(e)));
  }

  lemma PastThenHit(s: State, e: bool, i: nat, p: nat)
    requires s.run < |s.threads| && i < p < |s.procs| && Next(s) == Goto(s, Scan(e, i + 1))
    requires var r := Goto(s, Scan(e, i + 1)); Quiet(r, p - i + 2) == Goto(Started(r, p), ReadFlags(Uvm(e, p)))
    ensures Quiet(s, p - i + 3) == Goto(Started(s, p), ReadFlags(Uvm(e, p)))
  {
    assert Quiet(s, p - i + 3) == Quiet(Next(s), p - i + 2);
    hide Quiet, Next;
    StartedTwice(s, Scan(e, i + 1), p, ReadFlags(Uvm(e, p)));
  }

  lemma FirstFrom(procs: seq<PState>, i: nat)
    requires i < |procs| && procs[i] != RUNABLE
    ensures FirstRunable(procs, i) == FirstRunable(procs, i + 1)
  {
  }

  lemma GotoTwice(s: State, a: Pc, b: Pc)
    requires s.run < |s.threads|
    ensures Goto(Goto(s, a), b) == Goto(s, b)
  {
  }

  lemma StartedTwice(s: State, a: Pc, p: nat, b: Pc)
    requires s.run < |s.threads| && p < |s.procs|
    ensures Goto(Started(Goto(s, a), p), b) == Goto(Started(s, p), b)
  {
  }
}
