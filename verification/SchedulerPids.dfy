// Which pid each process gets over a run, and what exactly the tests of the kernel panic on.

module SchedulerPids {
  import opened Machine
  import opened Scheduler
  import opened SchedulerInv
  import opened SchedulerLaws

  // ---- Pids ----

  /** The slots that a step takes into use. */
  function Born(s: State, r: State): set<nat> {
    set p: nat | p < NPROC && p < |s.procs| && p < |r.procs| && s.procs[p] == UNUSED && r.procs[p] != UNUSED
  }

  /** How many steps of a run from boot took a slot into use. */
  function Births(cs: seq<Choice>): nat {
    if cs == [] then 0
    else
      var s := Exec(Scheduler.Boot(), cs[..|cs| - 1]);
      Births(cs[..|cs| - 1]) + if Born(s, Step(s, cs[|cs| - 1])) == {} then 0 else 1
  }

  /** The slot is the first unused one and gets this pid; all others keep theirs. */
  predicate BornWith(s: State, r: State, p: nat, pid: int) {
    && p < |s.procs| == |r.procs| && p < |s.pids|
    && Born(s, r) == {p} && (forall j :: 0 <= j < p ==> s.procs[j] != UNUSED)
    && r.procs == s.procs[p := EMBRYO] && r.pids == s.pids[p := pid]
  }

  /** A step takes no slot and changes no pid, or takes one and gives it nextpid, which goes on by one. */
  ghost predicate PidStep(s: State, r: State) {
    if Born(s, r) == {} then r.pids == s.pids && r.nextpid == s.nextpid
    else r.nextpid == s.nextpid + 1 && exists p :: BornWith(s, r, p, s.nextpid)
  }

  lemma NoneBorn(s: State, r: State)
    requires |s.procs| == |r.procs| == NPROC && r.pids == s.pids && r.nextpid == s.nextpid
    requires forall j :: 0 <= j < NPROC && s.procs[j] == UNUSED ==> r.procs[j] == UNUSED
    ensures PidStep(s, r)
  {
  }

  lemma PidBody(s: State, begin: Option<Task>)
    requires Inv(s) && Me(s).pc.Critical?
    ensures PidStep(s, Execute(s, begin))
  {
    RunsBody(s, begin);
    hide Execute, Switching;
    var t := Me(s).pc.t;
    if t.Allocate? {
      PidAllocate(s);
    } else if t.Publish? {
      PublishOwn(s);
      assert PidStep(s, Body(s, t)) by {
        NoneBorn(s, Body(s, t));
      }
    } else if t.Yield? {
      YieldOwn(s);
      assert PidStep(s, Body(s, t)) by {
        NoneBorn(s, Body(s, t));
      }
    } else {
      NoneBorn(s, Body(s, t));
    }
  }

  lemma PublishOwn(s: State)
    requires Inv(s) && Me(s).pc.Critical? && Me(s).pc.t.Publish?
    ensures Me(s).pc.t.p < NPROC && s.procs[Me(s).pc.t.p] == EMBRYO
  {
    hide FlagsOk, StatesOk, PidsOk, ParkedOk;
    assert Owned(s.threads[s.run]) == Some(Me(s).pc.t.p) by {
      hide OwnOk;
    }
  }

  lemma YieldOwn(s: State)
    requires Inv(s) && Me(s).pc.Critical? && Me(s).pc.t.Yield?
    ensures s.cur.Some? && s.cur.value < NPROC && s.procs[s.cur.value] == RUNNING
  {
    hide FlagsOk, OwnOk, PidsOk, ParkedOk;
  }

  lemma PidAllocate(s: State)
    requires Shape(s) && PidsOk(s)
    ensures PidStep(s, Body(s, Allocate))
  {
    var r, p := Body(s, Allocate), FirstUnused(s.procs);
    if p < NPROC {
      assert Born(s, r) == {p} by {
        assert p in Born(s, r);
        assert forall q :: q in Born(s, r) ==> q == p;
      }
      assert BornWith(s, r, p, s.nextpid);
    } else {
      NoneBorn(s, r);
    }
  }

  lemma PidSwitching(s: State, begin: Option<Task>)
    requires Inv(s) && Switches(Me(s).pc)
    ensures PidStep(s, Execute(s, begin))
  {
    RunsSwitching(s, begin);
    hide Execute, Body;
    SetRunHas(s);
    hide Inv, Born;
    InvShapes(s);
    NoneBorn(s, Switching(s));
  }

  lemma SetRunHas(s: State)
    requires Inv(s)
    ensures Me(s).pc.SetRun? && Me(s).pc.i < NPROC ==> s.procs[Me(s).pc.i] == RUNABLE
  {
    hide FlagsOk, OwnOk, PidsOk, ParkedOk;
  }

  lemma InvShapes(s: State)
    requires Inv(s)
    ensures Shape(s)
  {
  }

  lemma PidQuiet(s: State, r: State)
    requires Shape(s) && Quiet(s, r)
    ensures PidStep(s, r)
  {
    hide Born, OnlyMe;
    NoneBorn(s, r);
  }

  lemma PidsStep(s: State, c: Choice)
    requires Inv(s)
    ensures PidStep(s, Step(s, c))
  {
    StepKeeps(s, c);
    InvShapes(s);
    hide Execute, CpuOk, StatesOk, OwnOk, PidsOk, ParkedOk, Quiet, PidStep;
    var pc := Me(s).pc;
    match c
    case Go(begin) =>
      if pc.Critical? {
        PidBody(s, begin);
      } else if Switches(pc) {
        PidSwitching(s, begin);
      } else {
        QuietStep(s, begin);
        PidQuiet(s, Execute(s, begin));
      }
    case TimerIrq =>
      PidInterrupt(s, TimerTest);
    case KeyIrq =>
      PidInterrupt(s, ReadFlags(Console));
  }

  lemma PidInterrupt(s: State, handler: Pc)
    requires Inv(s)
    ensures PidStep(s, Interrupt(s, handler))
  {
    NoneBorn(s, Interrupt(s, handler));
  }

  lemma {:induction false} NextPid(cs: seq<Choice>)
    ensures Exec(Scheduler.Boot(), cs).nextpid == 1 + Births(cs)
    decreases |cs|
  {
    hide Inv, Step, Born;
    if cs != [] {
      NextPid(cs[..|cs| - 1]);
      EveryRunInv(cs[..|cs| - 1]);
      PidsStep(Exec(Scheduler.Boot(), cs[..|cs| - 1]), cs[|cs| - 1]);
    }
  }

  /** Main result: in every run from boot the k-th process to be allocated gets pid k, in the first unused slot,
      as an EMBRYO, and no pid is changed otherwise. */
  lemma EveryAllocationsPid(cs: seq<Choice>, c: Choice)
    ensures var s := Exec(Scheduler.Boot(), cs);
      var r := Step(s, c);
      if Born(s, r) == {} then Births(cs + [c]) == Births(cs) && r.pids == s.pids
      else Births(cs + [c]) == Births(cs) + 1 && exists p :: BornWith(s, r, p, Births(cs + [c]))
  {
    NextPid(cs);
    EveryRunInv(cs);
    PidsStep(Exec(Scheduler.Boot(), cs), c);
    assert (cs + [c])[..|cs|] == cs;
    hide Inv, Step, Born, Exec, BornWith;
  }

  // ---- Panics ----

  /** Main result: the tests that panic. acquire panics if and only if the lock is held, release if it is not,
      popcli with interrupts on or without a pushcli before it, and goto_scheduler unless ptable.lock is held
      inside one pushcli, interrupts are off and the process is no longer RUNNING. */
  lemma PanicTests(s: State, begin: Option<Task>)
    requires s.run < |s.threads| && !s.panicked
    ensures var pc, r := Me(s).pc, Step(s, Go(begin));
      && (pc.TestHolding? ==> (r.panicked <==> if pc.t.Console? then s.cons else s.ptable))
      && (pc.Leave? ==> (r.panicked <==> if pc.t.Console? then !s.cons else !s.ptable))
      && (pc.PopTest? ==> (r.panicked <==> s.flag))
      && (pc.PopCount? ==> (r.panicked <==> s.ncli < 1))
      && (pc.Checks? && s.cur.Some? && s.cur.value < |s.procs| ==>
            (r.panicked <==> !(s.ptable && s.ncli == 1 && !s.flag && s.procs[s.cur.value] != RUNNING)))
  {
    hide Body;
  }
}
