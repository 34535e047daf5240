/** Processes with their pids: the list the pid allocator scans is the list of processes, so a fork always gets a pid
    that no process has. */
module ProcessTable {
  import opened Process
  import PA = PidAlloc
  import PK = ProcessKernel

  /** The list holds every process but idle, once. */
  ghost predicate Listed(pids: seq<int>, procs: map<int, Proc>) {
    PA.Distinct(pids) && forall p :: p in pids <==> p in procs && p != IDLE
  }

  lemma {:induction false} DistinctSize(s: seq<int>)
    requires PA.Distinct(s)
    ensures |set x | x in s| == |s|
  {
    if s != [] {
      DistinctSize(s[1..]);
      assert (set x | x in s) == (set x | x in s[1..]) + {s[0]};
      assert s[0] !in s[1..];
    }
  }

  /** With idle, there is one process more than the list holds. */
  lemma CountListed(pids: seq<int>, procs: map<int, Proc>)
    requires Listed(pids, procs) && IDLE in procs
    ensures |procs| == |pids| + 1
  {
    DistinctSize(pids);
    var all := (set x | x in pids) + {IDLE};
    forall p ensures p in procs.Keys <==> p in all { }
    assert procs.Keys == all && |procs| == |procs.Keys|;
  }

  /** nr_process counts them. */
  ghost predicate Agree(s: State, pids: seq<int>, count: int) {
    Listed(pids, s.procs) && count == |s.procs|
  }

  ghost predicate Steps(s: State, op: Op, t: State) {
    Inv(s) && Enabled(s, op) && t == Step(s, op)
  }

  /** The child's pid is the first one after the last given that no process has, and the fork is one of the model's. */
  ghost predicate Forks(s: State, t: State, last: int, pid: int) {
    && Steps(s, DoFork(pid), t) && pid < PA.MAX_PID
    && forall x :: PA.Passed(last, pid, x) ==> x in s.procs
  }

  /** A pid that is not on the list is no process's, and a fork puts it there. */
  lemma OneMore(s: State, pids: seq<int>, count: int, last: int, pid: int)
    requires Inv(s) && Agree(s, pids, count) && pid !in pids && INIT <= pid < PA.MAX_PID
    requires s.procs[s.current].life == Runnable && s.current != IDLE
    requires forall x :: PA.Passed(last, pid, x) ==> x in pids
    ensures Enabled(s, DoFork(pid))
    ensures var t := Step(s, DoFork(pid)); Agree(t, [pid] + pids, count + 1) && Forks(s, t, last, pid)
  {
    var t := Step(s, DoFork(pid));
    assert t.procs.Keys == s.procs.Keys + {pid};
    assert |t.procs| == |t.procs.Keys| && |s.procs| == |s.procs.Keys|;
  }

  /** The list and the count after a wait. */
  lemma AfterWait(s: State, t: State, pids: seq<int>, count: int, asked: int, r: PK.WaitResult)
    requires s.current in s.kids && IDLE !in s.kids[s.current] && Agree(s, pids, count) && PK.Answers(s, t, asked, r)
    ensures if r.Collected? then Agree(t, PA.Without(pids, r.pid), count - 1) else Agree(t, pids, count)
  {
    PK.AnswersKeys(s, t, asked, r);
    if r.Collected? { PA.WithoutIs(pids, r.pid); }
    assert |t.procs| == |t.procs.Keys| && |s.procs| == |s.procs.Keys|;
  }

  datatype ForkResult = Forked(pid: int) | NoFreeProcess | NoMemory

  class Processes {
    const kernel: PK.Kernel
    const pids: PA.PidAllocator
    /** nr_process */
    var count: int

    ghost predicate Valid()
      reads this, kernel, pids
    {
      kernel.Valid() && pids.Valid() && Agree(kernel.Abs(), pids.pids, count)
    }

    /** After boot: idle, set up by hand, and init, which was given the first pid. */
    constructor ()
      ensures Valid() && fresh(kernel) && fresh(pids) && kernel.Abs() == Boot()
    {
      var k := new PK.Kernel();
      var a := new PA.PidAllocator();
      kernel, pids, count := k, a, 2;
      new;
      hide Inv, PK.Spelled, Agree, PA.GapFree;
      var pid, _ := pids.GetPid();
      assert PA.Passed(PA.MAX_PID, pid, INIT) <==> pid != INIT;
      pids.SetLinks();
      BootAgrees();
      assert pids.pids == [INIT];
    }

    ghost predicate Running()
      reads this, kernel
    {
      kernel.current in kernel.procs && kernel.procs[kernel.current].life == Runnable && kernel.current != IDLE
    }

    /** do_fork; whether there is memory for the child's stack, address space and files is a parameter. */
    method DoFork_(memory: bool) returns (r: ForkResult)
      requires Valid() && Running()
      modifies this, kernel, pids
      ensures Valid()
      ensures r == NoFreeProcess <==> |old(kernel.procs)| >= PA.MAX_PROCESS
      ensures r == NoMemory <==> |old(kernel.procs)| < PA.MAX_PROCESS && !memory
      ensures r.Forked? ==> Forks(old(kernel.Abs()), kernel.Abs(), old(pids.lastPid), r.pid)
      ensures !r.Forked? ==> unchanged(kernel) && unchanged(pids)
    {
      assert count == |kernel.procs|;
      hide Inv, PK.Spelled, PA.GapFree, Forks, Listed;
      if count >= PA.MAX_PROCESS {
        r := NoFreeProcess;
      } else if !memory {
        r := NoMemory;
      } else {
        var pid := NewChild();
        r := Forked(pid);
      }
    }

    /** The part of do_fork that cannot fail any more. */
    method NewChild() returns (pid: int)
      requires Valid() && Running() && count < PA.MAX_PROCESS
      modifies this, kernel, pids
      ensures Valid() && Forks(old(kernel.Abs()), kernel.Abs(), old(pids.lastPid), pid)
    {
      ghost var s, last := kernel.Abs(), pids.lastPid;
      IdleLives(s);
      CountListed(pids.pids, s.procs);
      hide Inv, Step, PK.Spelled, PA.GapFree, PA.Passed, Agree, Listed, Enabled, Forks;
      pid := NewPid(s);
      kernel.DoFork_(pid);
    }

    /** The pid is taken and the child listed before anything of the child is seen. */
    method NewPid(ghost s: State) returns (pid: int)
      requires pids.Valid() && Agree(s, pids.pids, count) && count < PA.MAX_PROCESS && |pids.pids| < PA.MAX_PROCESS
      requires Inv(s) && s.procs[s.current].life == Runnable && s.current != IDLE
      modifies this`count, pids
      ensures Enabled(s, DoFork(pid)) && Forks(s, Step(s, DoFork(pid)), old(pids.lastPid), pid)
      ensures pids.Valid() && Agree(Step(s, DoFork(pid)), pids.pids, count)
    {
      ghost var last, wraps := pids.lastPid, 0;
      hide Inv, Step, PA.GapFree, PA.Passed, Agree, Enabled, Forks;
      pid, wraps := pids.GetPid();
      OneMore(s, pids.pids, count, last, pid);
      pids.SetLinks();
      count := count + 1;
    }

    /** do_wait: a collected child leaves the list, and its pid may be given again. */
    method DoWait_(asked: int) returns (r: PK.WaitResult)
      requires Valid() && Running()
      modifies this, kernel, pids
      ensures Valid() && Steps(old(kernel.Abs()), DoWait(asked), kernel.Abs())
      ensures PK.Answers(old(kernel.Abs()), kernel.Abs(), asked, r)
    {
      ghost var s := kernel.Abs();
      IdleIsNobodys(s, asked);
      hide Inv, Steps, PK.Spelled, PA.GapFree, Agree, PK.Answers;
      r := WaitOnce(asked);
      ghost var t := kernel.Abs();
      Unlist(s, t, asked, r);
      assert kernel.Valid() && kernel.Abs() == t;
    }

    method WaitOnce(asked: int) returns (r: PK.WaitResult)
      requires kernel.Valid() && Running()
      modifies kernel
      ensures kernel.Valid() && Steps(old(kernel.Abs()), DoWait(asked), kernel.Abs())
      ensures PK.Answers(old(kernel.Abs()), kernel.Abs(), asked, r)
    {
      IdleIsNobodys(kernel.Abs(), asked);
      hide PK.Spelled, PK.Answers;
      r := kernel.DoWait_(asked);
    }

    method Unlist(ghost s: State, ghost t: State, ghost asked: int, r: PK.WaitResult)
      requires pids.Valid() && Agree(s, pids.pids, count)
      requires s.current in s.kids && IDLE !in s.kids[s.current] && PK.Answers(s, t, asked, r)
      modifies this`count, pids
      ensures pids.Valid() && Agree(t, pids.pids, count)
    {
      AfterWait(s, t, pids.pids, count, asked, r);
      hide PA.GapFree, Agree, PK.Answers;
      if r.Collected? {
        pids.RemoveLinks(r.pid);
        count := count - 1;
      }
    }
  }

  lemma BootAgrees()
    ensures Agree(Boot(), [INIT], 2)
  {
    assert Boot().procs.Keys == {IDLE, INIT} && |Boot().procs| == |Boot().procs.Keys|;
  }

  lemma IdleLives(s: State)
    requires Inv(s)
    ensures IDLE in s.procs
  {
  }

  lemma IdleIsNobodys(s: State, asked: int)
    requires Inv(s)
    ensures s.current in s.kids && IDLE !in s.kids[s.current]
    ensures s.procs[s.current].life == Runnable && s.current != IDLE ==> Enabled(s, DoWait(asked))
  {
    assert KidsOk(s, s.current);
    assert IDLE in s.kids[s.current] ==> KidOk(s, s.current, IDLE);
  }
}
