/** The Hoare monitor built on semaphores, for any client program and any interleaving. */
module Monitor {
  import opened Semaphores

  // ----- Client programs -----

  /** What a process inside the monitor does next; D is the monitor's data and R the client's control points. */
  datatype Action<D, R> =
    | Compute(data: D, next: R)
    | Wait(cv: nat, next: R)
    | Signal(cv: nat, next: R)
    | Leave(next: R)

  type Client<!D(!new), !R(!new)> = (Pid, R, D) -> Action<D, R>

  // ----- Control points of a process -----

  /** Semaphore numbers: the mutex, next, and the semaphore of condition k. */
  const MUTEX: nat := 0
  const NEXT: nat := 1
  function CvSem(k: nat): nat { k + 2 }

  datatype PC<R> =
    | Down(j: nat, resume: PC<R>)    // about to down semaphore j
    | Asleep(j: nat, resume: PC<R>)  // in its queue
    | Inside(r: R)
    | WaitTest(k: nat, r: R)         // cond_wait: count incremented
    | WaitUp(k: nat, toNext: bool, r: R)
    | WaitDec(k: nat, r: R)          // back from the condition: about to decrement count
    | SigInc(k: nat, r: R)           // cond_signal: count was positive
    | SigUp(k: nat, r: R)            // next_count incremented
    | SigDec(r: R)                   // back from next: about to decrement next_count
    | LeaveUp(toNext: bool, r: R)

  predicate Active<R>(pc: PC<R>) { !pc.Down? && !pc.Asleep? }

  function Outside<R>(r: R): PC<R> { Down(MUTEX, Inside(r)) }

  /** Between the increment and the decrement of the count of condition k. */
  predicate CountedBy<R>(pc: PC<R>, k: nat) {
    match pc
    case Down(_, resume) => CountedBy(resume, k)
    case Asleep(_, resume) => CountedBy(resume, k)
    case WaitTest(k', _) => k' == k
    case WaitUp(k', _, _) => k' == k
    case WaitDec(k', _) => k' == k
    case _ => false
  }

  /** Between the increment and the decrement of next_count. */
  predicate CountedNext<R>(pc: PC<R>) {
    match pc
    case Down(_, resume) => CountedNext(resume)
    case Asleep(_, resume) => CountedNext(resume)
    case SigUp(_, _) => true
    case SigDec(_) => true
    case _ => false
  }

  function NextWaiters<R>(pcs: seq<PC<R>>): nat {
    if pcs == [] then 0 else (if CountedNext(pcs[0]) then 1 else 0) + NextWaiters(pcs[1..])
  }

  function CvWaiters<R>(pcs: seq<PC<R>>, k: nat): nat {
    if pcs == [] then 0 else (if CountedBy(pcs[0], k) then 1 else 0) + CvWaiters(pcs[1..], k)
  }

  lemma {:induction false} NextUpdate<R>(pcs: seq<PC<R>>, i: nat, pc: PC<R>)
    requires i < |pcs|
    ensures NextWaiters(pcs[i := pc]) == NextWaiters(pcs) - (if CountedNext(pcs[i]) then 1 else 0) + (if CountedNext(pc) then 1 else 0)
  {
    if i == 0 {
      assert pcs[0 := pc][1..] == pcs[1..];
    } else {
      NextUpdate(pcs[1..], i - 1, pc);
      assert pcs[i := pc][1..] == pcs[1..][i - 1 := pc];
    }
  }

  lemma {:induction false} CvUpdate<R>(pcs: seq<PC<R>>, i: nat, pc: PC<R>, k: nat)
    requires i < |pcs|
    ensures CvWaiters(pcs[i := pc], k) == CvWaiters(pcs, k) - (if CountedBy(pcs[i], k) then 1 else 0) + (if CountedBy(pc, k) then 1 else 0)
  {
    if i == 0 {
      assert pcs[0 := pc][1..] == pcs[1..];
    } else {
      CvUpdate(pcs[1..], i - 1, pc, k);
      assert pcs[i := pc][1..] == pcs[1..][i - 1 := pc];
    }
  }

  lemma {:induction false} NextWitness<R>(pcs: seq<PC<R>>) returns (i: nat)
    requires NextWaiters(pcs) > 0
    ensures i < |pcs| && CountedNext(pcs[i])
  {
    if CountedNext(pcs[0]) {
      i := 0;
    } else {
      i := NextWitness(pcs[1..]);
      i := i + 1;
    }
  }

  lemma {:induction false} CvWitness<R>(pcs: seq<PC<R>>, k: nat) returns (i: nat)
    requires CvWaiters(pcs, k) > 0
    ensures i < |pcs| && CountedBy(pcs[i], k)
  {
    if CountedBy(pcs[0], k) {
      i := 0;
    } else {
      i := CvWitness(pcs[1..], k);
      i := i + 1;
    }
  }

  // ----- The state and its steps -----

  /** counts[k] is the count field of condition k; sems holds the mutex, next and the conditions' semaphores. */
  datatype State<D, R> = State(pcs: seq<PC<R>>, sems: seq<Sem>, nextCount: int, counts: seq<int>, data: D)

  function Init<D, R>(starts: seq<R>, numCv: nat, data: D): State<D, R> {
    State(seq(|starts|, i requires 0 <= i < |starts| => Outside(starts[i])),
          [Sem(1, [])] + seq(numCv + 1, _ => Sem(0, [])), 0, seq(numCv, _ => 0), data)
  }

  function Goto<D, R>(s: State<D, R>, p: Pid, pc: PC<R>): State<D, R>
    requires p < |s.pcs|
  {
    s.(pcs := s.pcs[p := pc])
  }

  /** Process p takes semaphore j or goes to sleep on it. */
  function DoDown<D, R>(s: State<D, R>, p: Pid, j: nat, resume: PC<R>): State<D, R>
    requires p < |s.pcs| && j < |s.sems|
  {
    var (sem, through) := Semaphores.Down(s.sems[j], p);
    Goto(s.(sems := s.sems[j := sem]), p, if through then resume else Asleep(j, resume))
  }

  /** Semaphore j is upped; a process woken continues where its down returns. */
  function DoUp<D, R>(s: State<D, R>, j: nat): State<D, R>
    requires j < |s.sems|
  {
    var (sem, w) := Up(s.sems[j]);
    var s' := s.(sems := s.sems[j := sem]);
    if w.Some? && w.value < |s.pcs| && s.pcs[w.value].Asleep? then Goto(s', w.value, s.pcs[w.value].resume) else s'
  }

  function AddCount<D, R>(s: State<D, R>, k: nat, delta: int): State<D, R>
    requires k < |s.counts|
  {
    s.(counts := s.counts[k := s.counts[k] + delta])
  }

  predicate WellSized<D, R>(s: State<D, R>) { |s.sems| == |s.counts| + 2 }

  /** One step of process p. A sleeping process, or an operation on a condition that does not exist, changes nothing. */
  function Step<D(!new), R(!new)>(client: Client<D, R>, s: State<D, R>, p: Pid): State<D, R>
    requires WellSized(s)
  {
    if p >= |s.pcs| then s else
    match s.pcs[p]
    case Down(j, resume) => if j >= |s.sems| then s else DoDown(s, p, j, resume)
    case Asleep(_, _) => s
    case Inside(r) =>
      (match client(p, r, s.data)
       case Compute(d, r') => Goto(s.(data := d), p, Inside(r'))
       case Wait(k, r') => if k >= |s.counts| then s else Goto(AddCount(s, k, 1), p, WaitTest(k, r'))
       case Signal(k, r') => if k >= |s.counts| then s else Goto(s, p, if s.counts[k] > 0 then SigInc(k, r') else Inside(r'))
       case Leave(r') => Goto(s, p, LeaveUp(s.nextCount > 0, r')))
    case WaitTest(k, r) => Goto(s, p, WaitUp(k, s.nextCount > 0, r))
    case WaitUp(k, toNext, r) => DoUp(Goto(s, p, Down(CvSem(k), WaitDec(k, r))), if toNext then NEXT else MUTEX)
    case WaitDec(k, r) => if k >= |s.counts| then s else Goto(AddCount(s, k, -1), p, Inside(r))
    case SigInc(k, r) => Goto(s.(nextCount := s.nextCount + 1), p, SigUp(k, r))
    case SigUp(k, r) => if k >= |s.counts| then s else DoUp(Goto(s, p, Down(NEXT, SigDec(r))), CvSem(k))
    case SigDec(r) => Goto(s.(nextCount := s.nextCount - 1), p, Inside(r))
    case LeaveUp(toNext, r) => DoUp(Goto(s, p, Outside(r)), if toNext then NEXT else MUTEX)
  }

  // ----- The invariant -----

  /** Where the monitor's one token is. */
  datatype Token = AtSem(j: nat) | AtProcess(p: Pid)

  ghost predicate SemHolds(sem: Sem, here: bool) { sem.value == if here then 1 else 0 }

  ghost predicate OneToken<D, R>(s: State<D, R>, t: Token) {
    && (forall j :: 0 <= j < |s.sems| ==> SemHolds(s.sems[j], t == AtSem(j)))
    && (forall p :: 0 <= p < |s.pcs| ==> (Active(s.pcs[p]) <==> t == AtProcess(p)))
    && (match t case AtSem(j) => j < |s.sems| case AtProcess(p) => p < |s.pcs|)
  }

  /** Each queue holds exactly the processes asleep on its semaphore. */
  ghost predicate Queues<D, R>(s: State<D, R>) {
    && (forall j :: 0 <= j < |s.sems| ==> Sound(s.sems[j]))
    && (forall j, p :: 0 <= j < |s.sems| ==> QueuedRight(s, j, p))
  }

  ghost predicate QueuedRight<D, R>(s: State<D, R>, j: nat, p: Pid)
    requires j < |s.sems|
  {
    p in s.sems[j].queue <==> p < |s.pcs| && s.pcs[p].Asleep? && s.pcs[p].j == j
  }

  ghost predicate Counters<D, R>(s: State<D, R>) {
    && s.nextCount == NextWaiters(s.pcs)
    && forall k :: 0 <= k < |s.counts| ==> s.counts[k] == CvWaiters(s.pcs, k)
  }

  /** A process asleep, or about to be, resumes where its semaphore says. */
  ghost predicate Fits<R>(j: nat, resume: PC<R>, numCv: nat) {
    if j == MUTEX then resume.Inside?
    else if j == NEXT then resume.SigDec?
    else j < numCv + 2 && resume.WaitDec? && CvSem(resume.k) == j
  }

  /** What a process relies on between reading a counter and acting on it. */
  ghost predicate Relies<D, R>(s: State<D, R>, pc: PC<R>) {
    match pc
    case Down(j, resume) => Fits(j, resume, |s.counts|)
    case Asleep(j, resume) => Fits(j, resume, |s.counts|)
    case Inside(_) => true
    case WaitTest(k, _) => k < |s.counts|
    case WaitUp(k, toNext, _) => k < |s.counts| && (toNext <==> s.nextCount > 0)
    case WaitDec(k, _) => k < |s.counts|
    case SigInc(k, _) => k < |s.counts| && s.counts[k] > 0
    case SigUp(k, _) => k < |s.counts| && s.counts[k] > 0
    case SigDec(_) => true
    case LeaveUp(toNext, _) => toNext <==> s.nextCount > 0
  }

  ghost predicate Reliance<D, R>(s: State<D, R>) {
    forall p :: 0 <= p < |s.pcs| ==> Relies(s, s.pcs[p])
  }

  /** A token in a condition's semaphore or in next has a process about to take it; one in the mutex leaves no
      signaller behind. */
  ghost predicate Claimed<D, R>(s: State<D, R>, t: Token) {
    t.AtSem? ==>
      if t.j == MUTEX then s.nextCount == 0
      else exists p :: 0 <= p < |s.pcs| && s.pcs[p].Down? && s.pcs[p].j == t.j
  }

  ghost predicate Inv<D, R>(s: State<D, R>, t: Token) {
    WellSized(s) && OneToken(s, t) && Queues(s) && Counters(s) && Reliance(s) && Claimed(s, t)
  }

  // ----- Down -----

  lemma DownKeeps<D, R>(s: State<D, R>, p: Pid, t: Token) returns (t': Token)
    requires Inv(s, t) && p < |s.pcs| && s.pcs[p].Down? && s.pcs[p].j < |s.sems|
    ensures Inv(DoDown(s, p, s.pcs[p].j, s.pcs[p].resume), t')
    ensures t' == if s.sems[s.pcs[p].j].value > 0 then AtProcess(p) else t
  {
    var Down(j, resume) := s.pcs[p];
    var s' := DoDown(s, p, j, resume);
    assert Relies(s, s.pcs[p]);
    t' := if s.sems[j].value > 0 then AtProcess(p) else t;
    DownCounters(s, p, j, resume);
    DownTokens(s, p, t);
    assert Reliance(s') by { hide OneToken, Queues, Counters, Claimed; }
  }

  lemma DownCounters<D, R>(s: State<D, R>, p: Pid, j: nat, resume: PC<R>)
    requires Counters(s) && p < |s.pcs| && s.pcs[p] == Down(j, resume) && j < |s.sems|
    ensures Counters(DoDown(s, p, j, resume))
  {
    var pc' := DoDown(s, p, j, resume).pcs[p];
    NextUpdate(s.pcs, p, pc');
    forall k | 0 <= k < |s.counts| ensures CvWaiters(s.pcs[p := pc'], k) == CvWaiters(s.pcs, k) { CvUpdate(s.pcs, p, pc', k); }
  }

  lemma DownTokens<D, R>(s: State<D, R>, p: Pid, t: Token)
    requires WellSized(s) && OneToken(s, t) && Queues(s) && Claimed(s, t)
    requires p < |s.pcs| && s.pcs[p].Down? && s.pcs[p].j < |s.sems| && Active(s.pcs[p].resume)
    ensures var j := s.pcs[p].j;
            var s', t' := DoDown(s, p, j, s.pcs[p].resume), if s.sems[j].value > 0 then AtProcess(p) else t;
            OneToken(s', t') && Queues(s') && Claimed(s', t')
  {
    assert SemHolds(s.sems[s.pcs[p].j], t == AtSem(s.pcs[p].j));
    DownQueues(s, p);
  }

  lemma DownQueues<D, R>(s: State<D, R>, p: Pid)
    requires Queues(s) && p < |s.pcs| && s.pcs[p].Down? && s.pcs[p].j < |s.sems| && Active(s.pcs[p].resume)
    ensures Queues(DoDown(s, p, s.pcs[p].j, s.pcs[p].resume))
  {
    var j := s.pcs[p].j;
    var s' := DoDown(s, p, j, s.pcs[p].resume);
    assert Sound(s.sems[j]) && QueuedRight(s, j, p);
    forall j': nat, q: Pid | 0 <= j' < |s'.sems|
      ensures QueuedRight(s', j', q)
    {
      AsleepIsQueued(s, j', q);
      if j' == j && s.sems[j].value == 0 {
        assert q in s.sems[j].queue + [p] <==> q in s.sems[j].queue || q == p;
      }
    }
  }

  // ----- Up -----

  lemma AsleepIsQueued<D, R>(s: State<D, R>, j: nat, q: Pid)
    requires Queues(s) && j < |s.sems|
    ensures q in s.sems[j].queue <==> q < |s.pcs| && s.pcs[q].Asleep? && s.pcs[q].j == j
  {
    assert QueuedRight(s, j, q);
  }

  lemma FirstIsAsleep<D, R>(s: State<D, R>, j: nat)
    requires Queues(s) && j < |s.sems| && s.sems[j].queue != []
    ensures var w := s.sems[j].queue[0];
            w < |s.pcs| && s.pcs[w].Asleep? && s.pcs[w].j == j && w !in s.sems[j].queue[1..]
  {
    AsleepIsQueued(s, j, s.sems[j].queue[0]);
    assert Sound(s.sems[j]);
  }

  /** The process holding the token moves to `pc`, where it is about to down, and ups semaphore j. */
  function Release<D, R>(s: State<D, R>, p: Pid, pc: PC<R>, j: nat): State<D, R>
    requires p < |s.pcs| && j < |s.sems|
  {
    DoUp(Goto(s, p, pc), j)
  }

  ghost function TokenAfterUp<D, R>(s: State<D, R>, j: nat): Token
    requires j < |s.sems|
  {
    if s.sems[j].queue == [] then AtSem(j) else AtProcess(s.sems[j].queue[0])
  }

  lemma ReleaseQueues<D, R>(s: State<D, R>, p: Pid, pc: PC<R>, j: nat)
    requires Queues(s) && p < |s.pcs| && Active(s.pcs[p]) && pc.Down? && j < |s.sems| && Reliance(s)
    ensures Queues(Release(s, p, pc, j))
  {
    var s' := Release(s, p, pc, j);
    assert Sound(s.sems[j]);
    if s.sems[j].queue != [] {
      var w := s.sems[j].queue[0];
      FirstIsAsleep(s, j);
      assert Relies(s, s.pcs[w]);
      forall j': nat, q: Pid | 0 <= j' < |s'.sems|
        ensures QueuedRight(s', j', q)
      {
        AsleepIsQueued(s, j', q);
        assert s.sems[j].queue == [w] + s.sems[j].queue[1..];
      }
    } else {
      forall j': nat, q: Pid | 0 <= j' < |s'.sems|
        ensures QueuedRight(s', j', q)
      {
        AsleepIsQueued(s, j', q);
      }
    }
  }

  lemma ReleaseTokens<D, R>(s: State<D, R>, p: Pid, pc: PC<R>, j: nat)
    requires OneToken(s, AtProcess(p)) && Queues(s) && p < |s.pcs| && pc.Down? && j < |s.sems| && Reliance(s)
    ensures OneToken(Release(s, p, pc, j), TokenAfterUp(s, j))
  {
    assert SemHolds(s.sems[j], false);
    if s.sems[j].queue != [] {
      var w := s.sems[j].queue[0];
      FirstIsAsleep(s, j);
      assert Relies(s, s.pcs[w]);
    }
  }

  lemma ReleaseCounters<D, R>(s: State<D, R>, p: Pid, pc: PC<R>, j: nat)
    requires Counters(s) && Queues(s) && p < |s.pcs| && Active(s.pcs[p]) && j < |s.sems|
    requires CountedNext(pc) == CountedNext(s.pcs[p]) && forall k :: 0 <= k < |s.counts| ==> CountedBy(pc, k) == CountedBy(s.pcs[p], k)
    ensures Counters(Release(s, p, pc, j))
  {
    var s1 := Goto(s, p, pc);
    NextUpdate(s.pcs, p, pc);
    forall k | 0 <= k < |s.counts| ensures CvWaiters(s1.pcs, k) == CvWaiters(s.pcs, k) { CvUpdate(s.pcs, p, pc, k); }
    if s.sems[j].queue != [] {
      var w := s.sems[j].queue[0];
      FirstIsAsleep(s, j);
      var resume := s.pcs[w].resume;
      NextUpdate(s1.pcs, w, resume);
      forall k | 0 <= k < |s.counts| ensures CvWaiters(s1.pcs[w := resume], k) == CvWaiters(s1.pcs, k) { CvUpdate(s1.pcs, w, resume, k); }
    }
  }

  /** Somebody else is counted on condition k while the token holder is not: it is asleep there or about to be. */
  lemma ParkedOnCv<D, R>(s: State<D, R>, p: Pid, k: nat) returns (q: Pid)
    requires Inv(s, AtProcess(p)) && k < |s.counts| && s.counts[k] > 0 && !CountedBy(s.pcs[p], k)
    ensures q < |s.pcs| && q != p && (s.pcs[q].Asleep? || s.pcs[q].Down?) && s.pcs[q].j == CvSem(k)
  {
    q := CvWitness(s.pcs, k);
    assert Relies(s, s.pcs[q]);
  }

  lemma ParkedOnNext<D, R>(s: State<D, R>, p: Pid) returns (q: Pid)
    requires Inv(s, AtProcess(p)) && s.nextCount > 0 && !CountedNext(s.pcs[p])
    ensures q < |s.pcs| && q != p && (s.pcs[q].Asleep? || s.pcs[q].Down?) && s.pcs[q].j == NEXT
  {
    q := NextWitness(s.pcs);
    assert Relies(s, s.pcs[q]);
  }

  /** Giving the token away through semaphore j keeps everything, provided somebody is there to take it. */
  lemma ReleaseKeeps<D, R>(s: State<D, R>, p: Pid, pc: PC<R>, j: nat)
    requires Inv(s, AtProcess(p)) && pc.Down? && Fits(pc.j, pc.resume, |s.counts|) && j < |s.sems|
    requires CountedNext(pc) == CountedNext(s.pcs[p]) && forall k :: 0 <= k < |s.counts| ==> CountedBy(pc, k) == CountedBy(s.pcs[p], k)
    requires if j == MUTEX then s.nextCount == 0
             else exists q :: 0 <= q < |s.pcs| && q != p && (s.pcs[q].Asleep? || s.pcs[q].Down?) && s.pcs[q].j == j
    ensures Inv(Release(s, p, pc, j), TokenAfterUp(s, j))
  {
    ReleaseQueues(s, p, pc, j);
    ReleaseTokens(s, p, pc, j);
    ReleaseCounters(s, p, pc, j);
    var s', t' := Release(s, p, pc, j), TokenAfterUp(s, j);
    if s.sems[j].queue != [] {
      FirstIsAsleep(s, j);
      assert Relies(s, s.pcs[s.sems[j].queue[0]]);
    } else if j != MUTEX {
      var q :| 0 <= q < |s.pcs| && q != p && (s.pcs[q].Asleep? || s.pcs[q].Down?) && s.pcs[q].j == j;
      AsleepIsQueued(s, j, q);
      assert s'.pcs[q].Down? && s'.pcs[q].j == j;
    }
    assert Reliance(s') by { hide Queues, Counters, Claimed, OneToken; }
  }

  // ----- Steps of the holder that keep the token -----

  /** The holder moves to another active point and changes counters to match. */
  lemma MoveKeeps<D, R>(s: State<D, R>, p: Pid, s1: State<D, R>, pc: PC<R>)
    requires Inv(s, AtProcess(p)) && Active(pc) && p < |s.pcs|
    requires s1.pcs == s.pcs && s1.sems == s.sems && |s1.counts| == |s.counts|
    requires s1.nextCount == s.nextCount - (if CountedNext(s.pcs[p]) then 1 else 0) + (if CountedNext(pc) then 1 else 0)
    requires forall k :: 0 <= k < |s.counts| ==>
               s1.counts[k] == s.counts[k] - (if CountedBy(s.pcs[p], k) then 1 else 0) + (if CountedBy(pc, k) then 1 else 0)
    requires Relies(s1, pc)
    ensures Inv(Goto(s1, p, pc), AtProcess(p))
  {
    var s' := Goto(s1, p, pc);
    NextUpdate(s.pcs, p, pc);
    forall k | 0 <= k < |s.counts| ensures s'.counts[k] == CvWaiters(s'.pcs, k) { CvUpdate(s.pcs, p, pc, k); }
    MoveQueues(s, p, s1, pc);
    hide Queues, Relies;
    assert Reliance(s') by { MoveRelies(s, p, s1, pc); }
  }

  lemma MoveQueues<D, R>(s: State<D, R>, p: Pid, s1: State<D, R>, pc: PC<R>)
    requires Inv(s, AtProcess(p)) && Active(pc) && p < |s.pcs| && s1.pcs == s.pcs && s1.sems == s.sems
    ensures Queues(Goto(s1, p, pc))
  {
    hide Counters, Reliance, Claimed;
    var s' := Goto(s1, p, pc);
    forall j: nat, q: Pid | 0 <= j < |s.sems| ensures QueuedRight(s', j, q) { AsleepIsQueued(s, j, q); }
  }

  lemma MoveRelies<D, R>(s: State<D, R>, p: Pid, s1: State<D, R>, pc: PC<R>)
    requires Reliance(s) && p < |s.pcs| && s1.pcs == s.pcs && |s1.counts| == |s.counts| && Relies(s1, pc)
    requires forall q :: 0 <= q < |s.pcs| && q != p ==> !Active(s.pcs[q])
    ensures Reliance(Goto(s1, p, pc))
  {
    var s' := Goto(s1, p, pc);
    forall q | 0 <= q < |s'.pcs| ensures Relies(s', s'.pcs[q]) { assert Relies(s, s.pcs[q]); }
  }

  /** Every step of every process keeps the invariant, whatever the client does. */
  lemma StepKeeps<D(!new), R(!new)>(client: Client<D, R>, s: State<D, R>, p: Pid, t: Token) returns (t': Token)
    requires Inv(s, t)
    ensures Inv(Step(client, s, p), t')
  {
    t' := t;
    if p < |s.pcs| {
      assert Relies(s, s.pcs[p]);
      if s.pcs[p].Down? {
        t' := DownKeeps(s, p, t);
      } else if Active(s.pcs[p]) {
        t' := ActiveKeeps(client, s, p);
      }
    }
  }

  lemma ActiveKeeps<D(!new), R(!new)>(client: Client<D, R>, s: State<D, R>, p: Pid) returns (t': Token)
    requires Inv(s, AtProcess(p)) && p < |s.pcs|
    ensures Inv(Step(client, s, p), t')
  {
    assert Relies(s, s.pcs[p]);
    t' := AtProcess(p);
    hide Queues, Counters, Reliance, OneToken, Claimed, Inv;
    match s.pcs[p]
    case Inside(r) => InsideKeeps(client, s, p);
    case WaitTest(k, r) => MoveKeeps(s, p, s, WaitUp(k, s.nextCount > 0, r));
    case WaitDec(k, r) => MoveKeeps(s, p, AddCount(s, k, -1), Inside(r));
    case SigInc(k, r) => MoveKeeps(s, p, s.(nextCount := s.nextCount + 1), SigUp(k, r));
    case SigDec(r) => MoveKeeps(s, p, s.(nextCount := s.nextCount - 1), Inside(r));
    case WaitUp(_, _, _) => t' := UpKeeps(client, s, p);
    case SigUp(_, _) => t' := UpKeeps(client, s, p);
    case LeaveUp(_, _) => t' := UpKeeps(client, s, p);
  }

  lemma InsideKeeps<D(!new), R(!new)>(client: Client<D, R>, s: State<D, R>, p: Pid)
    requires Inv(s, AtProcess(p)) && p < |s.pcs| && s.pcs[p].Inside?
    ensures Inv(Step(client, s, p), AtProcess(p))
  {
    hide Queues, Counters, Reliance, OneToken, Claimed;
    match client(p, s.pcs[p].r, s.data)
    case Compute(d, r') => MoveKeeps(s, p, s.(data := d), Inside(r'));
    case Wait(k, r') => if k < |s.counts| { MoveKeeps(s, p, AddCount(s, k, 1), WaitTest(k, r')); }
    case Signal(k, r') =>
      if k < |s.counts| { MoveKeeps(s, p, s, if s.counts[k] > 0 then SigInc(k, r') else Inside(r')); }
    case Leave(r') => MoveKeeps(s, p, s, LeaveUp(s.nextCount > 0, r'));
  }

  predicate AtUp<R>(pc: PC<R>) { pc.WaitUp? || pc.SigUp? || pc.LeaveUp? }

  /** The semaphore a process at one of its ups is about to up. */
  function Upped<R>(pc: PC<R>): nat
    requires AtUp(pc)
  {
    if pc.SigUp? then CvSem(pc.k) else if pc.toNext then NEXT else MUTEX
  }

  lemma UpKeeps<D(!new), R(!new)>(client: Client<D, R>, s: State<D, R>, p: Pid) returns (t': Token)
    requires Inv(s, AtProcess(p)) && p < |s.pcs| && AtUp(s.pcs[p])
    ensures Upped(s.pcs[p]) < |s.sems| && t' == TokenAfterUp(s, Upped(s.pcs[p]))
    ensures Inv(Step(client, s, p), t')
  {
    assert Relies(s, s.pcs[p]);
    assert s.nextCount >= 0 by { assert Counters(s); }
    var j: nat;
    match s.pcs[p] {
      case WaitUp(k, toNext, r) =>
        j := if toNext then NEXT else MUTEX;
        if toNext { var q := ParkedOnNext(s, p); }
        ReleaseKeeps(s, p, Down(CvSem(k), WaitDec(k, r)), j);
      case SigUp(k, r) =>
        j := CvSem(k);
        var q := ParkedOnCv(s, p, k);
        ReleaseKeeps(s, p, Down(NEXT, SigDec(r)), j);
      case LeaveUp(toNext, r) =>
        j := if toNext then NEXT else MUTEX;
        if toNext { var q := ParkedOnNext(s, p); }
        ReleaseKeeps(s, p, Outside(r), j);
    }
    t' := TokenAfterUp(s, j);
  }

  // ----- Whole runs -----

  /** The state after the processes of `schedule` took one step each, in that order. */
  function Run<D(!new), R(!new)>(client: Client<D, R>, s: State<D, R>, schedule: seq<Pid>): (r: State<D, R>)
    requires WellSized(s)
    ensures WellSized(r)
    decreases |schedule|
  {
    if schedule == [] then s else Run(client, Step(client, s, schedule[0]), schedule[1..])
  }

  lemma InitInv<D, R>(starts: seq<R>, numCv: nat, data: D)
    ensures Inv(Init(starts, numCv, data), AtSem(MUTEX))
  {
    var s := Init(starts, numCv, data);
    NobodyCounted(s.pcs);
    forall p | 0 <= p < |s.pcs| ensures Relies(s, s.pcs[p]) {}
  }

  lemma {:induction false} NobodyCounted<R>(pcs: seq<PC<R>>)
    requires forall i :: 0 <= i < |pcs| ==> pcs[i].Down? && pcs[i].resume.Inside?
    ensures NextWaiters(pcs) == 0 && forall k :: CvWaiters(pcs, k) == 0
  {
    if pcs != [] {
      NobodyCounted(pcs[1..]);
      assert !CountedNext(pcs[0].resume);
      forall k ensures CvWaiters(pcs, k) == 0 { assert !CountedBy(pcs[0].resume, k) && CvWaiters(pcs[1..], k) == 0; }
    }
  }

  lemma {:induction false} RunKeeps<D(!new), R(!new)>(client: Client<D, R>, s: State<D, R>, schedule: seq<Pid>, t: Token) returns (t': Token)
    requires Inv(s, t)
    ensures Inv(Run(client, s, schedule), t')
    decreases |schedule|
  {
    if schedule == [] {
      t' := t;
    } else {
      var t1 := StepKeeps(client, s, schedule[0], t);
      t' := RunKeeps(client, Step(client, s, schedule[0]), schedule[1..], t1);
    }
  }

  /** In every interleaving of any client at most one process is active inside the monitor. */
  lemma AtMostOneActive<D(!new), R(!new)>(client: Client<D, R>, starts: seq<R>, numCv: nat, data: D, schedule: seq<Pid>, p: Pid, q: Pid)
    requires p < |Run(client, Init(starts, numCv, data), schedule).pcs| && q < |Run(client, Init(starts, numCv, data), schedule).pcs|
    requires var s := Run(client, Init(starts, numCv, data), schedule); Active(s.pcs[p]) && Active(s.pcs[q])
    ensures p == q
  {
    InitInv(starts, numCv, data);
    var t := RunKeeps(client, Init(starts, numCv, data), schedule, AtSem(MUTEX));
  }

  /** How many processes sleep in the queue of semaphore j or are on their way into it. */
  function Parked<R>(pcs: seq<PC<R>>, j: nat): nat {
    if pcs == [] then 0
    else (if (pcs[0].Asleep? || pcs[0].Down?) && pcs[0].j == j then 1 else 0) + Parked(pcs[1..], j)
  }

  lemma {:induction false} CountedAreParked<R>(pcs: seq<PC<R>>, k: nat, numCv: nat)
    requires k < numCv
    requires forall i :: 0 <= i < |pcs| && !Active(pcs[i]) ==> Fits(pcs[i].j, pcs[i].resume, numCv)
    requires forall i :: 0 <= i < |pcs| && Active(pcs[i]) ==> !CountedBy(pcs[i], k)
    ensures CvWaiters(pcs, k) == Parked(pcs, CvSem(k))
  {
    if pcs != [] {
      CountedAreParked(pcs[1..], k, numCv);
      if !Active(pcs[0]) {
        assert Fits(pcs[0].j, pcs[0].resume, numCv);
        assert CountedBy(pcs[0], k) == CountedBy(pcs[0].resume, k) == (pcs[0].j == CvSem(k));
      }
    }
  }

  lemma {:induction false} CountedNextAreParked<R>(pcs: seq<PC<R>>, numCv: nat)
    requires forall i :: 0 <= i < |pcs| && !Active(pcs[i]) ==> Fits(pcs[i].j, pcs[i].resume, numCv)
    requires forall i :: 0 <= i < |pcs| && Active(pcs[i]) ==> !CountedNext(pcs[i])
    ensures NextWaiters(pcs) == Parked(pcs, NEXT)
  {
    if pcs != [] {
      CountedNextAreParked(pcs[1..], numCv);
      if !Active(pcs[0]) {
        assert Fits(pcs[0].j, pcs[0].resume, numCv);
        assert CountedNext(pcs[0]) == CountedNext(pcs[0].resume) == (pcs[0].j == NEXT);
      }
    }
  }

  /** Whenever a process inside the monitor reads them, count and next_count are the real numbers of parked waiters and
      parked signallers. */
  lemma CountersAreReal<D(!new), R(!new)>(client: Client<D, R>, starts: seq<R>, numCv: nat, data: D, schedule: seq<Pid>, p: Pid, k: nat)
    requires var s := Run(client, Init(starts, numCv, data), schedule);
             p < |s.pcs| && s.pcs[p].Inside? && k < |s.counts|
    ensures var s := Run(client, Init(starts, numCv, data), schedule);
            s.counts[k] == Parked(s.pcs, CvSem(k)) && s.nextCount == Parked(s.pcs, NEXT)
  {
    InitInv(starts, numCv, data);
    var t := RunKeeps(client, Init(starts, numCv, data), schedule, AtSem(MUTEX));
    var s := Run(client, Init(starts, numCv, data), schedule);
    assert t == AtProcess(p);
    forall i | 0 <= i < |s.pcs| && !Active(s.pcs[i]) ensures Fits(s.pcs[i].j, s.pcs[i].resume, |s.counts|) {
      assert Relies(s, s.pcs[i]);
    }
    CountedAreParked(s.pcs, k, |s.counts|);
    CountedNextAreParked(s.pcs, |s.counts|);
  }

  /** Semaphore j is at one and every other at zero. */
  ghost predicate OnlyAt<D, R>(s: State<D, R>, j: nat) {
    j < |s.sems| && s.sems[j].value == 1 && forall k :: 0 <= k < |s.sems| && k != j ==> s.sems[k].value == 0
  }

  /** No token is lost and none is made: with nobody active exactly one semaphore is positive, and it is the mutex, with
      no signaller left behind, or one that some process is about to take. */
  lemma TokenIsNeverLost<D(!new), R(!new)>(client: Client<D, R>, starts: seq<R>, numCv: nat, data: D, schedule: seq<Pid>)
    requires var s := Run(client, Init(starts, numCv, data), schedule); forall p :: 0 <= p < |s.pcs| ==> !Active(s.pcs[p])
    ensures var s := Run(client, Init(starts, numCv, data), schedule);
            || (OnlyAt(s, MUTEX) && s.nextCount == 0)
            || exists p :: 0 <= p < |s.pcs| && s.pcs[p].Down? && OnlyAt(s, s.pcs[p].j)
  {
    InitInv(starts, numCv, data);
    var t := RunKeeps(client, Init(starts, numCv, data), schedule, AtSem(MUTEX));
    var s := Run(client, Init(starts, numCv, data), schedule);
    if t.AtSem? {
      assert SemHolds(s.sems[t.j], true);
      assert OnlyAt(s, t.j) by {
        forall k | 0 <= k < |s.sems| && k != t.j ensures s.sems[k].value == 0 { assert SemHolds(s.sems[k], t == AtSem(k)); }
      }
    }
  }

  /** A signal is not lost: a process that finds count positive hands the token to a waiter of that very condition, or
      to its semaphore while a waiter is about to take it. */
  lemma SignalReachesWaiter<D(!new), R(!new)>(client: Client<D, R>, s: State<D, R>, p: Pid, t: Token)
    requires Inv(s, t) && p < |s.pcs| && s.pcs[p].SigUp?
    ensures var k := s.pcs[p].k;
            var s' := Step(client, s, p);
            && s'.data == s.data
            && exists w :: 0 <= w < |s.pcs| && w != p && CountedBy(s.pcs[w], k) &&
                 if s.sems[CvSem(k)].queue != [] then s'.pcs[w].WaitDec? && s'.pcs[w].k == k && Inv(s', AtProcess(w))
                 else s'.pcs[w].Down? && s'.pcs[w].j == CvSem(k) && Inv(s', AtSem(CvSem(k)))
  {
    var k := s.pcs[p].k;
    assert Relies(s, s.pcs[p]);
    var q := ParkedOnCv(s, p, k);
    assert Relies(s, s.pcs[q]);
    var t' := UpKeeps(client, s, p);
    var w := q;
    if s.sems[CvSem(k)].queue != [] {
      FirstIsAsleep(s, CvSem(k));
      w := s.sems[CvSem(k)].queue[0];
      assert Relies(s, s.pcs[w]);
      assert Active(Step(client, s, p).pcs[w]);
    } else {
      AsleepIsQueued(s, CvSem(k), q);
      assert SemHolds(Step(client, s, p).sems[CvSem(k)], t' == AtSem(CvSem(k)));
    }
    assert CountedBy(s.pcs[w], k) by { assert CountedBy(s.pcs[w].resume, k); }
  }
}
