/** The dining philosophers as clients of the monitor. */
module Philosophers {
  import opened Semaphores
  import opened Monitor

  const N: nat := 5

  /** The neighbours' numbers, (i-1+N)%N and (i+1)%N. */
  function Left(i: nat): (l: nat)
    ensures i < N ==> l == (i - 1 + N) % N
  {
    if i == 0 then N - 1 else i - 1
  }

  function Right(i: nat): (r: nat)
    ensures i < N ==> r == (i + 1) % N
  {
    if i == N - 1 then 0 else i + 1
  }

  datatype Meal = THINKING | HUNGRY | EATING
  type Table = seq<Meal>

  /** Points inside the monitor: Take* in phi_take_forks_condvar, Put* in phi_put_forks_condvar. A philosopher outside
      the monitor at TakeStart is thinking, at PutStart it has come back from taking its forks. */
  datatype Point =
    | TakeStart | TakeTest | TakeSet | TakeSignal | TakeCheck | TakeEnd
    | PutStart | PutLeft | PutLeftSet | PutLeftSignal | PutRight | PutRightSet | PutRightSignal | PutEnd

  /** The condition phi_test_condvar tests. */
  predicate CanEat(d: Table, i: nat)
    requires |d| == N && i < N
  {
    d[i] == HUNGRY && d[Left(i)] != EATING && d[Right(i)] != EATING
  }

  function Philosopher(i: Pid, r: Point, d: Table): Action<Table, Point> {
    if i >= N || |d| != N then Leave(r) else
    match r
    case TakeStart => Compute(d[i := HUNGRY], TakeTest)
    case TakeTest => Compute(d, if CanEat(d, i) then TakeSet else TakeCheck)
    case TakeSet => Compute(d[i := EATING], TakeSignal)
    case TakeSignal => Signal(i, TakeCheck)
    case TakeCheck => if d[i] != EATING then Wait(i, TakeEnd) else Compute(d, TakeEnd)
    case TakeEnd => Leave(PutStart)
    case PutStart => Compute(d[i := THINKING], PutLeft)
    case PutLeft => Compute(d, if CanEat(d, Left(i)) then PutLeftSet else PutRight)
    case PutLeftSet => Compute(d[Left(i) := EATING], PutLeftSignal)
    case PutLeftSignal => Signal(Left(i), PutRight)
    case PutRight => Compute(d, if CanEat(d, Right(i)) then PutRightSet else PutEnd)
    case PutRightSet => Compute(d[Right(i) := EATING], PutRightSignal)
    case PutRightSignal => Signal(Right(i), PutEnd)
    case PutEnd => Leave(TakeStart)
  }

  const client: Client<Table, Point> := (i: Pid, r, d) => Philosopher(i, r, d)

  type PState = State<Table, Point>

  function Start(): PState {
    Init(seq(N, _ => TakeStart), N, seq(N, _ => THINKING))
  }

  // ----- What holds at every point -----

  /** Process i has gone, or is about to go, to sleep on its own condition. */
  ghost predicate OnOwnCv(s: PState, i: nat)
    requires i < |s.pcs|
  {
    (s.pcs[i].Down? || s.pcs[i].Asleep?) && s.pcs[i].j == CvSem(i) && s.pcs[i].resume.WaitDec?
  }

  /** The token is on its way to waiter i: in its condition's semaphore, or with the process signalling it. */
  ghost predicate Granted(s: PState, t: Token, i: nat) {
    match t
    case AtSem(j) => j == CvSem(i)
    case AtProcess(p) =>
      p < |s.pcs| && (match s.pcs[p]
        case Inside(r) => (r == PutLeftSignal && Left(p) == i) || (r == PutRightSignal && Right(p) == i)
        case SigInc(k, _) => k == i
        case SigUp(k, _) => k == i
        case _ => false)
  }

  ghost predicate InsideOk(s: PState, i: nat, r: Point)
    requires |s.data| == |s.pcs| == N && i < N
  {
    var d := s.data;
    match r
    case TakeStart => d[i] == THINKING
    case TakeTest => d[i] == HUNGRY
    case TakeSet => CanEat(d, i)
    case TakeSignal => d[i] == EATING
    case TakeCheck => d[i] != THINKING && !CanEat(d, i)
    case TakeEnd => d[i] == EATING
    case PutStart => d[i] == EATING
    case PutLeft => d[i] == THINKING
    case PutLeftSet => d[i] == THINKING && CanEat(d, Left(i))
    case PutLeftSignal => d[i] == THINKING && d[Left(i)] == EATING && OnOwnCv(s, Left(i))
    case PutRight => d[i] == THINKING
    case PutRightSet => d[i] == THINKING && CanEat(d, Right(i))
    case PutRightSignal => d[i] == THINKING && d[Right(i)] == EATING && OnOwnCv(s, Right(i))
    case PutEnd => d[i] == THINKING
  }

  /** What a process that is asleep, or about to down a semaphore, left behind. */
  ghost predicate ParkedOk(s: PState, t: Token, i: nat, resume: PC<Point>)
    requires |s.data| == N && i < N
  {
    var d := s.data;
    match resume
    case Inside(r) => (r == TakeStart && d[i] == THINKING) || (r == PutStart && d[i] == EATING)
    case WaitDec(k, r) => k == i && r == TakeEnd && (d[i] == HUNGRY || (d[i] == EATING && Granted(s, t, i)))
    case SigDec(r) => (r == PutRight || r == PutEnd) && d[i] == THINKING
    case _ => false
  }

  ghost predicate Own(s: PState, t: Token, i: nat)
    requires |s.data| == |s.pcs| == N && i < N
  {
    var d := s.data;
    true == match s.pcs[i]
    case Down(_, resume) => ParkedOk(s, t, i, resume)
    case Asleep(_, resume) => ParkedOk(s, t, i, resume)
    case Inside(r) => InsideOk(s, i, r)
    case WaitTest(k, r) => k == i && r == TakeEnd && d[i] == HUNGRY && !CanEat(d, i)
    case WaitUp(k, _, r) => k == i && r == TakeEnd && d[i] == HUNGRY && !CanEat(d, i)
    case WaitDec(k, r) => k == i && r == TakeEnd && d[i] == EATING
    case SigInc(k, r) => ((k == Left(i) && r == PutRight) || (k == Right(i) && r == PutEnd)) && d[i] == THINKING && d[k] == EATING && OnOwnCv(s, k)
    case SigUp(k, r) => ((k == Left(i) && r == PutRight) || (k == Right(i) && r == PutEnd)) && d[i] == THINKING && d[k] == EATING && OnOwnCv(s, k)
    case SigDec(r) => (r == PutRight || r == PutEnd) && d[i] == THINKING
    case LeaveUp(_, r) => (r == TakeStart && d[i] == THINKING) || (r == PutStart && d[i] == EATING)
  }

  /** Process p still has to test whether its left (right) neighbour may eat. */
  ghost predicate WillTestLeft(pc: PC<Point>) {
    pc.Inside? && (pc.r == PutLeft || pc.r == PutLeftSet)
  }

  ghost predicate WillTestRight(pc: PC<Point>) {
    match pc
    case Inside(r) => r == PutLeft || r == PutLeftSet || r == PutLeftSignal || r == PutRight || r == PutRightSet
    case SigInc(_, r) => r == PutRight
    case SigUp(_, r) => r == PutRight
    case Down(_, resume) => resume == SigDec(PutRight)
    case Asleep(_, resume) => resume == SigDec(PutRight)
    case SigDec(r) => r == PutRight
    case _ => false
  }

  /** A hungry philosopher whose neighbours are not eating is about to be tested, by itself or by a neighbour. */
  ghost predicate Remembered(s: PState, i: nat)
    requires |s.data| == |s.pcs| == N && i < N
  {
    CanEat(s.data, i) ==>
      || (s.pcs[i].Inside? && (s.pcs[i].r == TakeTest || s.pcs[i].r == TakeSet))
      || WillTestLeft(s.pcs[Right(i)])
      || WillTestRight(s.pcs[Left(i)])
  }

  ghost predicate Apart(d: Table)
    requires |d| == N
  {
    forall i :: 0 <= i < N ==> !(d[i] == EATING && d[Right(i)] == EATING)
  }

  ghost predicate PInv(s: PState, t: Token) {
    && Inv(s, t) && |s.pcs| == |s.data| == |s.counts| == N
    && Apart(s.data)
    && (forall i :: 0 <= i < N ==> Own(s, t, i))
    && (forall i :: 0 <= i < N ==> Remembered(s, i))
    && (forall k :: 0 <= k < N && t == AtSem(CvSem(k)) ==> s.data[k] == EATING)
  }

  // ----- Preservation -----

  lemma StartOk()
    ensures PInv(Start(), AtSem(MUTEX))
  {
    InitInv(seq(N, _ => TakeStart), N, seq(N, _ => THINKING));
  }

  /** Only philosopher k waits on condition k. */
  lemma CountIsOwn(s: PState, t: Token, k: nat)
    requires PInv(s, t) && k < N
    ensures s.counts[k] > 0 <==> CountedBy(s.pcs[k], k)
  {
    if s.counts[k] > 0 {
      var q := CvWitness(s.pcs, k);
      assert Own(s, t, q) && Relies(s, s.pcs[q]);
    } else if CountedBy(s.pcs[k], k) {
      CvPositive(s.pcs, k, k);
    }
  }

  lemma {:induction false} CvPositive(pcs: seq<PC<Point>>, k: nat, i: nat)
    requires i < |pcs| && CountedBy(pcs[i], k)
    ensures CvWaiters(pcs, k) > 0
  {
    if i > 0 { CvPositive(pcs[1..], k, i - 1); }
  }

  lemma DownPhase(s: PState, t: Token, p: nat) returns (t': Token)
    requires PInv(s, t) && p < N && s.pcs[p].Down?
    ensures PInv(Step(client, s, p), t')
  {
    assert Relies(s, s.pcs[p]);
    t' := DownKeeps(s, p, t);
    var s' := Step(client, s, p);
    assert SemHolds(s.sems[s.pcs[p].j], t == AtSem(s.pcs[p].j));
    forall i | 0 <= i < N ensures Own(s', t', i) && Remembered(s', i) {
      DownOwn(s, t, p, i);
      DownRemembered(s, p, i);
    }
  }

  lemma DownOwn(s: PState, t: Token, p: nat, i: nat)
    requires |s.data| == |s.pcs| == |s.counts| == N && WellSized(s)
    requires p < N && s.pcs[p].Down? && i < N && s.pcs[p].j < |s.sems|
    requires Own(s, t, i) && Own(s, t, p) && Relies(s, s.pcs[p])
    requires forall j :: 0 <= j < |s.sems| ==> SemHolds(s.sems[j], t == AtSem(j))
    requires forall q :: 0 <= q < |s.pcs| ==> (Active(s.pcs[q]) <==> t == AtProcess(q))
    requires forall k :: 0 <= k < N && t == AtSem(CvSem(k)) ==> s.data[k] == EATING
    ensures var s' := Step(client, s, p);
            var t' := if s.sems[s.pcs[p].j].value > 0 then AtProcess(p) else t;
            Own(s', t', i)
  {
    assert SemHolds(s.sems[s.pcs[p].j], t == AtSem(s.pcs[p].j));
  }

  lemma DownRemembered(s: PState, p: nat, i: nat)
    requires |s.data| == |s.pcs| == N && WellSized(s) && p < N && s.pcs[p].Down? && i < N && s.pcs[p].j < |s.sems|
    requires Remembered(s, i) && Relies(s, s.pcs[p])
    ensures Remembered(Step(client, s, p), i)
  {
  }

  /** The process inside the monitor is at a point from which its next step keeps the token. */
  ghost predicate Holding(s: PState, p: nat) {
    && PInv(s, AtProcess(p)) && p < N
    && (s.pcs[p].Inside? || s.pcs[p].WaitTest? || s.pcs[p].WaitDec? || s.pcs[p].SigInc? || s.pcs[p].SigDec?)
  }

  lemma HolderMoves(s: PState, p: nat)
    requires Inv(s, AtProcess(p)) && p < |s.pcs|
    requires s.pcs[p].Inside? || s.pcs[p].WaitTest? || s.pcs[p].WaitDec? || s.pcs[p].SigInc? || s.pcs[p].SigDec?
    ensures Inv(Step(client, s, p), AtProcess(p))
  {
    var t' := StepKeeps(client, s, p, AtProcess(p));
    assert Relies(s, s.pcs[p]);
    assert Active(Step(client, s, p).pcs[p]);
  }

  /** While p holds the token everybody else is asleep or about to be. */
  lemma OthersParked(s: PState, p: nat, i: nat)
    requires PInv(s, AtProcess(p)) && p < N && i < N && i != p
    ensures (s.pcs[i].Down? || s.pcs[i].Asleep?) && ParkedOk(s, AtProcess(p), i, s.pcs[i].resume)
    ensures Fits(s.pcs[i].j, s.pcs[i].resume, N)
    ensures OnOwnCv(s, i) <==> s.data[i] == HUNGRY || (s.data[i] == EATING && Granted(s, AtProcess(p), i) && s.pcs[i].resume.WaitDec?)
  {
    assert Own(s, AtProcess(p), i) && Relies(s, s.pcs[i]) && !Active(s.pcs[i]);
  }

  /** The rest of the table is as the step of p left it. */
  lemma OtherOwn(s: PState, p: nat, i: nat)
    requires Holding(s, p) && i < N && i != p
    ensures Own(Step(client, s, p), AtProcess(p), i)
  {
    OthersParked(s, p, i);
    assert Own(s, AtProcess(p), p) && Relies(s, s.pcs[p]);
    if s.pcs[p].Inside? {
      CountIsOwn(s, AtProcess(p), i);
      OtherOwnInside(s, p, i);
    } else {
      OtherOwnOutside(s, p, i);
    }
  }

  lemma OtherOwnOutside(s: PState, p: nat, i: nat)
    requires WellSized(s) && |s.data| == |s.pcs| == |s.counts| == N && p < N && i < N && i != p
    requires s.pcs[p].WaitTest? || s.pcs[p].WaitDec? || s.pcs[p].SigInc? || s.pcs[p].SigDec?
    requires (s.pcs[i].Down? || s.pcs[i].Asleep?) && ParkedOk(s, AtProcess(p), i, s.pcs[i].resume)
    ensures Own(Step(client, s, p), AtProcess(p), i)
  {
  }

  lemma OtherOwnInside(s: PState, p: nat, i: nat)
    requires WellSized(s) && |s.data| == |s.pcs| == |s.counts| == N && p < N && i < N && i != p
    requires s.pcs[p].Inside? && InsideOk(s, p, s.pcs[p].r)
    requires (s.pcs[i].Down? || s.pcs[i].Asleep?) && ParkedOk(s, AtProcess(p), i, s.pcs[i].resume)
    requires OnOwnCv(s, i) ==> s.counts[i] > 0
    ensures Own(Step(client, s, p), AtProcess(p), i)
  {
  }

  /** What p may assume of somebody else while it holds the token. */
  ghost predicate Waits(s: PState, p: nat, i: nat)
    requires |s.data| == |s.pcs| == |s.counts| == N && i < N
  {
    && (s.data[i] == HUNGRY ==> OnOwnCv(s, i))
    && (OnOwnCv(s, i) ==> s.counts[i] > 0)
  }

  lemma SelfOwn(s: PState, p: nat)
    requires WellSized(s) && |s.data| == |s.pcs| == |s.counts| == N && p < N
    requires s.pcs[p].Inside? || s.pcs[p].WaitTest? || s.pcs[p].WaitDec? || s.pcs[p].SigInc? || s.pcs[p].SigDec?
    requires Own(s, AtProcess(p), p)
    requires s.counts[p] > 0 <==> CountedBy(s.pcs[p], p)
    requires Waits(s, p, Left(p)) && Waits(s, p, Right(p))
    ensures Own(Step(client, s, p), AtProcess(p), p)
  {
    if s.pcs[p].Inside? {
      if s.pcs[p].r in {TakeStart, TakeTest, TakeSet, TakeSignal, TakeCheck, TakeEnd} {
        SelfOwnTake(s, p);
      } else {
        SelfOwnPut(s, p);
      }
    }
  }

  lemma SelfOwnTake(s: PState, p: nat)
    requires WellSized(s) && |s.data| == |s.pcs| == |s.counts| == N && p < N
    requires s.pcs[p].Inside? && s.pcs[p].r in {TakeStart, TakeTest, TakeSet, TakeSignal, TakeCheck, TakeEnd}
    requires InsideOk(s, p, s.pcs[p].r) && !(s.counts[p] > 0)
    ensures Own(Step(client, s, p), AtProcess(p), p)
  {
  }

  lemma SelfOwnPut(s: PState, p: nat)
    requires WellSized(s) && |s.data| == |s.pcs| == |s.counts| == N && p < N
    requires s.pcs[p].Inside? && s.pcs[p].r !in {TakeStart, TakeTest, TakeSet, TakeSignal, TakeCheck, TakeEnd}
    requires InsideOk(s, p, s.pcs[p].r)
    requires Waits(s, p, Left(p)) && Waits(s, p, Right(p))
    ensures Own(Step(client, s, p), AtProcess(p), p)
  {
  }

  lemma HolderRemembers(s: PState, p: nat, i: nat)
    requires WellSized(s) && |s.data| == |s.pcs| == |s.counts| == N && p < N && i < N
    requires s.pcs[p].Inside? || s.pcs[p].WaitTest? || s.pcs[p].WaitDec? || s.pcs[p].SigInc? || s.pcs[p].SigDec?
    requires Own(s, AtProcess(p), p) && Remembered(s, i)
    ensures Remembered(Step(client, s, p), i)
  {
    var s' := Step(client, s, p);
    assert forall q :: 0 <= q < N && q != p ==> s'.pcs[q] == s.pcs[q];
    if s.pcs[p].Inside? { InsideRemembers(s, p, i); }
  }

  lemma InsideRemembers(s: PState, p: nat, i: nat)
    requires WellSized(s) && |s.data| == |s.pcs| == |s.counts| == N && p < N && i < N
    requires s.pcs[p].Inside? && InsideOk(s, p, s.pcs[p].r) && Remembered(s, i)
    ensures Remembered(Step(client, s, p), i)
  {
    var s' := Step(client, s, p);
    var r := s.pcs[p].r;
    if r == PutStart {
      assert s' == Goto(s.(data := s.data[p := THINKING]), p, Inside(PutLeft));
    } else if r == TakeStart {
      assert s' == Goto(s.(data := s.data[p := HUNGRY]), p, Inside(TakeTest));
    } else if r == PutLeft || r == PutLeftSet || r == PutLeftSignal {
      LeftRemembers(s, p, i);
    } else {
      LaterRemembers(s, p, i);
    }
  }

  lemma LaterRemembers(s: PState, p: nat, i: nat)
    requires WellSized(s) && |s.data| == |s.pcs| == |s.counts| == N && p < N && i < N
    requires s.pcs[p].Inside? && s.pcs[p].r !in {PutStart, TakeStart, PutLeft, PutLeftSet, PutLeftSignal}
    requires InsideOk(s, p, s.pcs[p].r) && Remembered(s, i)
    ensures Remembered(Step(client, s, p), i)
  {
    assert CanEat(Step(client, s, p).data, i) ==> CanEat(s.data, i);
  }

  lemma LeftRemembers(s: PState, p: nat, i: nat)
    requires WellSized(s) && |s.data| == |s.pcs| == |s.counts| == N && p < N && i < N
    requires s.pcs[p].Inside? && s.pcs[p].r in {PutLeft, PutLeftSet, PutLeftSignal}
    requires InsideOk(s, p, s.pcs[p].r) && Remembered(s, i)
    ensures Remembered(Step(client, s, p), i)
  {
    assert CanEat(Step(client, s, p).data, i) ==> CanEat(s.data, i);
    assert Right(i) == p ==> Left(p) == i;
  }

  lemma HolderPhase(s: PState, p: nat)
    requires Holding(s, p)
    ensures PInv(Step(client, s, p), AtProcess(p))
  {
    var s' := Step(client, s, p);
    HolderMoves(s, p);
    Sized(s, AtProcess(p));
    hide Inv, Own, Remembered, Apart, Holding;
    assert Own(s, AtProcess(p), p);
    HolderApart(s, p);
    forall i | 0 <= i < N ensures Own(s', AtProcess(p), i) && Remembered(s', i) { HolderEach(s, p, i); }
  }

  lemma Sized(s: PState, t: Token)
    requires PInv(s, t)
    ensures WellSized(s)
  {
    hide Own, Remembered, Apart;
  }

  lemma HolderEach(s: PState, p: nat, i: nat)
    requires Holding(s, p) && i < N && WellSized(s) && |Step(client, s, p).data| == |Step(client, s, p).pcs| == N
    ensures Own(Step(client, s, p), AtProcess(p), i) && Remembered(Step(client, s, p), i)
  {
    assert PInv(s, AtProcess(p)) && Own(s, AtProcess(p), p) && Remembered(s, i);
    hide PInv, Own, Remembered, Inv;
    HolderRemembers(s, p, i);
    if i == p {
      MayAssume(s, p, Left(p));
      MayAssume(s, p, Right(p));
      CountIsOwn(s, AtProcess(p), p);
      SelfOwn(s, p);
    } else {
      OtherOwn(s, p, i);
    }
  }

  lemma MayAssume(s: PState, p: nat, i: nat)
    requires Holding(s, p) && i < N && i != p
    ensures |s.counts| == N && Waits(s, p, i)
  {
    OthersParked(s, p, i);
    CountIsOwn(s, AtProcess(p), i);
  }

  lemma HolderApart(s: PState, p: nat)
    requires WellSized(s) && |s.data| == |s.pcs| == |s.counts| == N && p < N
    requires s.pcs[p].Inside? || s.pcs[p].WaitTest? || s.pcs[p].WaitDec? || s.pcs[p].SigInc? || s.pcs[p].SigDec?
    requires Own(s, AtProcess(p), p) && Apart(s.data)
    ensures |Step(client, s, p).data| == |Step(client, s, p).pcs| == |Step(client, s, p).counts| == N && Apart(Step(client, s, p).data)
  {
    hide Apart;
    if s.pcs[p].Inside? {
      var a := Philosopher(p, s.pcs[p].r, s.data);
      if a.Compute? { ComputeApart(s, p); }
    }
  }

  lemma ComputeApart(s: PState, p: nat)
    requires |s.data| == |s.pcs| == N && p < N && s.pcs[p].Inside? && InsideOk(s, p, s.pcs[p].r) && Apart(s.data)
    requires Philosopher(p, s.pcs[p].r, s.data).Compute?
    ensures |Philosopher(p, s.pcs[p].r, s.data).data| == N && Apart(Philosopher(p, s.pcs[p].r, s.data).data)
  {
    hide OnOwnCv;
  }

  // ----- Giving the token away -----

  /** A process woken from semaphore j was asleep there and had left its forks and mind in order. */
  ghost predicate Woken(s: PState, p: nat, j: nat)
    requires |s.data| == |s.pcs| == N && j < |s.sems|
  {
    s.sems[j].queue != [] ==>
      var w := s.sems[j].queue[0];
      w < N && w != p && s.pcs[w].Asleep? && s.pcs[w].j == j && ParkedOk(s, AtProcess(p), w, s.pcs[w].resume) && Fits(j, s.pcs[w].resume, N)
  }

  lemma WokenInOrder(s: PState, p: nat, j: nat)
    requires PInv(s, AtProcess(p)) && p < N && j < |s.sems|
    ensures Woken(s, p, j)
  {
    if s.sems[j].queue != [] {
      FirstIsAsleep(s, j);
      OthersParked(s, p, s.sems[j].queue[0]);
    }
  }

  lemma ReleasePhase(s: PState, p: nat) returns (t': Token)
    requires PInv(s, AtProcess(p)) && p < N && AtUp(s.pcs[p])
    ensures PInv(Step(client, s, p), t')
  {
    Sized(s, AtProcess(p));
    hide Inv, Own, Remembered, Apart;
    t' := UpKeeps(client, s, p);
    assert Own(s, AtProcess(p), p);
    ReleaseShape(s, p);
    hide Step, TokenAfterUp;
    forall i | 0 <= i < N ensures Own(Step(client, s, p), t', i) && Remembered(Step(client, s, p), i) { ReleaseEach(s, p, i); }
  }

  /** Only a signaller ups a condition, and the philosopher it signals eats. */
  lemma ReleaseShape(s: PState, p: nat)
    requires WellSized(s) && |s.data| == |s.pcs| == |s.counts| == N && p < N && AtUp(s.pcs[p])
    requires Own(s, AtProcess(p), p) && Upped(s.pcs[p]) < |s.sems|
    ensures var s' := Step(client, s, p);
      s'.data == s.data && |s'.pcs| == |s'.counts| == N
    ensures forall k :: 0 <= k < N && TokenAfterUp(s, Upped(s.pcs[p])) == AtSem(CvSem(k)) ==> s.data[k] == EATING
  {
  }

  lemma ReleaseEach(s: PState, p: nat, i: nat)
    requires PInv(s, AtProcess(p)) && p < N && AtUp(s.pcs[p]) && i < N && Upped(s.pcs[p]) < |s.sems|
    ensures Own(Step(client, s, p), TokenAfterUp(s, Upped(s.pcs[p])), i) && Remembered(Step(client, s, p), i)
  {
    var j := Upped(s.pcs[p]);
    WokenInOrder(s, p, j);
    if i != p { OthersParked(s, p, i); }
    assert Own(s, AtProcess(p), p) && Remembered(s, i);
    hide Inv;
    ReleaseOwn(s, p, j, i);
    ReleaseRemembers(s, p, j, i);
  }

  lemma ReleaseOwn(s: PState, p: nat, j: nat, i: nat)
    requires WellSized(s) && |s.data| == |s.pcs| == |s.counts| == N && p < N && i < N && j < |s.sems|
    requires AtUp(s.pcs[p]) && j == Upped(s.pcs[p])
    requires Own(s, AtProcess(p), p) && Woken(s, p, j)
    requires i != p ==> (s.pcs[i].Down? || s.pcs[i].Asleep?) && ParkedOk(s, AtProcess(p), i, s.pcs[i].resume)
    ensures Own(Step(client, s, p), TokenAfterUp(s, j), i)
  {
    if s.sems[j].queue != [] && i == s.sems[j].queue[0] {
      WokenResumes(s, p, j);
    } else if i == p {
      ReleaserParks(s, p, j);
    } else {
      StillParked(s, p, j, i);
    }
  }

  lemma WokenResumes(s: PState, p: nat, j: nat)
    requires WellSized(s) && |s.data| == |s.pcs| == |s.counts| == N && p < N && j < |s.sems|
    requires AtUp(s.pcs[p]) && j == Upped(s.pcs[p]) && s.sems[j].queue != []
    requires Own(s, AtProcess(p), p) && Woken(s, p, j)
    ensures Own(Step(client, s, p), TokenAfterUp(s, j), s.sems[j].queue[0])
  {
  }

  lemma ReleaserParks(s: PState, p: nat, j: nat)
    requires WellSized(s) && |s.data| == |s.pcs| == |s.counts| == N && p < N && j < |s.sems|
    requires AtUp(s.pcs[p]) && j == Upped(s.pcs[p])
    requires Own(s, AtProcess(p), p) && Woken(s, p, j)
    ensures Own(Step(client, s, p), TokenAfterUp(s, j), p)
  {
  }

  lemma StillParked(s: PState, p: nat, j: nat, i: nat)
    requires WellSized(s) && |s.data| == |s.pcs| == |s.counts| == N && p < N && i < N && j < |s.sems|
    requires AtUp(s.pcs[p]) && j == Upped(s.pcs[p])
    requires Own(s, AtProcess(p), p) && Woken(s, p, j)
    requires i != p && (s.sems[j].queue != [] ==> i != s.sems[j].queue[0])
    requires (s.pcs[i].Down? || s.pcs[i].Asleep?) && ParkedOk(s, AtProcess(p), i, s.pcs[i].resume)
    ensures Own(Step(client, s, p), TokenAfterUp(s, j), i)
  {
  }

  lemma ReleaseRemembers(s: PState, p: nat, j: nat, i: nat)
    requires WellSized(s) && |s.data| == |s.pcs| == |s.counts| == N && p < N && i < N && j < |s.sems|
    requires AtUp(s.pcs[p]) && j == Upped(s.pcs[p])
    requires Own(s, AtProcess(p), p) && Woken(s, p, j) && Remembered(s, i)
    ensures Remembered(Step(client, s, p), i)
  {
    ReleaseKeepsTests(s, p, j, Left(i));
    ReleaseKeepsTests(s, p, j, Right(i));
    ReleaseKeepsTests(s, p, j, i);
    hide Own, Woken, WillTestRight;
  }

  /** Giving the token away takes no pending test away. */
  lemma ReleaseKeepsTests(s: PState, p: nat, j: nat, q: nat)
    requires WellSized(s) && |s.data| == |s.pcs| == |s.counts| == N && p < N && q < N && j < |s.sems|
    requires AtUp(s.pcs[p]) && j == Upped(s.pcs[p])
    requires Own(s, AtProcess(p), p) && Woken(s, p, j)
    ensures var s' := Step(client, s, p);
            && s'.data == s.data && |s'.pcs| == N
            && (WillTestRight(s.pcs[q]) ==> WillTestRight(s'.pcs[q]))
            && (s.pcs[q].Inside? ==> s'.pcs[q] == s.pcs[q])
  {
  }

  // ----- Every run -----

  lemma PhilosopherStep(s: PState, t: Token, p: nat) returns (t': Token)
    requires PInv(s, t)
    ensures PInv(Step(client, s, p), t')
  {
    t' := t;
    if p < N {
      if s.pcs[p].Down? {
        t' := DownPhase(s, t, p);
      } else if Active(s.pcs[p]) {
        if AtUp(s.pcs[p]) {
          t' := ReleasePhase(s, p);
        } else {
          HolderPhase(s, p);
        }
      }
    }
  }

  lemma {:induction false} PhilosophersRun(s: PState, t: Token, schedule: seq<Pid>) returns (t': Token)
    requires PInv(s, t)
    ensures PInv(Run(client, s, schedule), t')
    decreases |schedule|
  {
    if schedule == [] {
      t' := t;
    } else {
      var t1 := PhilosopherStep(s, t, schedule[0]);
      t' := PhilosophersRun(Step(client, s, schedule[0]), t1, schedule[1..]);
    }
  }

  /** In every interleaving no two neighbours eat at once, and a philosopher back from taking its forks is eating. */
  lemma NeighboursNeverEat(schedule: seq<Pid>, i: nat)
    requires i < N
    ensures var s := Run(client, Start(), schedule);
            && |s.data| == |s.pcs| == N
            && !(s.data[i] == EATING && s.data[(i + 1) % 5] == EATING)
            && (s.pcs[i] == Outside(PutStart) ==> s.data[i] == EATING)
            && (s.pcs[i] == Outside(TakeStart) ==> s.data[i] == THINKING)
  {
    StartOk();
    var t := PhilosophersRun(Start(), AtSem(MUTEX), schedule);
    SafeAt(Run(client, Start(), schedule), t, i);
    hide PInv;
  }

  lemma SafeAt(s: PState, t: Token, i: nat)
    requires PInv(s, t) && i < N
    ensures |s.data| == |s.pcs| == N && !(s.data[i] == EATING && s.data[(i + 1) % 5] == EATING)
    ensures s.pcs[i] == Outside(PutStart) ==> s.data[i] == EATING
    ensures s.pcs[i] == Outside(TakeStart) ==> s.data[i] == THINKING
  {
    assert Right(i) == (i + 1) % 5;
    MealOutside(s, t, i);
    hide Inv, Own, Remembered;
  }

  lemma MealOutside(s: PState, t: Token, i: nat)
    requires |s.data| == |s.pcs| == N && i < N && Own(s, t, i)
    ensures s.pcs[i] == Outside(PutStart) ==> s.data[i] == EATING
    ensures s.pcs[i] == Outside(TakeStart) ==> s.data[i] == THINKING
  {
  }

  /** Whenever the monitor is free, a hungry philosopher has an eating neighbour: no one was forgotten. */
  lemma NoOneForgotten(schedule: seq<Pid>, i: nat)
    requires i < N
    ensures var s := Run(client, Start(), schedule);
            && |s.sems| == N + 2 && |s.data| == N
            && (s.sems[MUTEX].value == 1 && s.data[i] == HUNGRY ==> s.data[(i + 4) % 5] == EATING || s.data[(i + 1) % 5] == EATING)
  {
    StartOk();
    var t := PhilosophersRun(Start(), AtSem(MUTEX), schedule);
    var s := Run(client, Start(), schedule);
    if s.sems[MUTEX].value == 1 && CanEat(s.data, i) {
      assert SemHolds(s.sems[MUTEX], t == AtSem(MUTEX));
      assert Remembered(s, i) && !Active(s.pcs[i]) && !Active(s.pcs[Right(i)]) && !Active(s.pcs[Left(i)]);
      assert CountedNext(s.pcs[Left(i)]) by { assert CountedNext(s.pcs[Left(i)].resume); }
      NextPositive(s.pcs, Left(i));
      assert false;
    }
  }

  lemma {:induction false} NextPositive(pcs: seq<PC<Point>>, i: nat)
    requires i < |pcs| && CountedNext(pcs[i])
    ensures NextWaiters(pcs) > 0
  {
    if i > 0 { NextPositive(pcs[1..], i - 1); }
  }

  /** No deadlock: in every interleaving some philosopher is not asleep, and its next step goes on to another point. */
  lemma SomeoneCanMove(schedule: seq<Pid>) returns (i: nat)
    ensures var s := Run(client, Start(), schedule);
            && WellSized(s) && |s.data| == |s.pcs| == N && i < N
            && !s.pcs[i].Asleep? && Step(client, s, i).pcs[i] != s.pcs[i]
  {
    StartOk();
    var t := PhilosophersRun(Start(), AtSem(MUTEX), schedule);
    i := Mover(Run(client, Start(), schedule), t);
    MoverMoves(Run(client, Start(), schedule), t, i);
  }

  lemma Mover(s: PState, t: Token) returns (i: nat)
    requires PInv(s, t)
    ensures i < N && !s.pcs[i].Asleep?
  {
    if t.AtProcess? {
      i := t.p;
    } else if t.j != MUTEX {
      i :| 0 <= i < N && s.pcs[i].Down? && s.pcs[i].j == t.j;
    } else {
      NotAllAsleep(s, t);
      i :| 0 <= i < N && !s.pcs[i].Asleep?;
    }
  }

  lemma NotAllAsleep(s: PState, t: Token)
    requires PInv(s, t) && t == AtSem(MUTEX)
    ensures exists k :: 0 <= k < N && !s.pcs[k].Asleep?
  {
    hide Inv, Own, Apart;
    forall k | 0 <= k < N ensures !s.pcs[k].Asleep? || (s.data[k] == HUNGRY && s.pcs[k].resume.WaitDec?) { if s.pcs[k].Asleep? { AllHungry(s, t, k); } }
    assert Remembered(s, 0);
  }

  lemma AllHungry(s: PState, t: Token, k: nat)
    requires PInv(s, t) && t == AtSem(MUTEX) && k < N && s.pcs[k].Asleep?
    ensures s.data[k] == HUNGRY && s.pcs[k].resume.WaitDec?
  {
    assert Own(s, t, k) && Relies(s, s.pcs[k]);
    assert SemHolds(s.sems[MUTEX], true) && Sound(s.sems[MUTEX]) && QueuedRight(s, MUTEX, k);
    if CountedNext(s.pcs[k]) { NextPositive(s.pcs, k); }
  }

  lemma MoverMoves(s: PState, t: Token, i: nat)
    requires PInv(s, t) && i < N && !s.pcs[i].Asleep?
    ensures Step(client, s, i).pcs[i] != s.pcs[i]
  {
    assert Own(s, t, i) && Relies(s, s.pcs[i]);
    hide PInv, Remembered, OnOwnCv, Granted;
    if s.pcs[i].Inside? {
      InsideMoves(s, i);
    } else if s.pcs[i].WaitUp? || s.pcs[i].SigUp? || s.pcs[i].LeaveUp? {
      UpMoves(s, t, i);
    }
  }

  lemma InsideMoves(s: PState, i: nat)
    requires WellSized(s) && |s.pcs| == |s.data| == |s.counts| == N && i < N && s.pcs[i].Inside?
    ensures Step(client, s, i).pcs[i] != s.pcs[i]
  {
  }

  lemma UpMoves(s: PState, t: Token, i: nat)
    requires PInv(s, t) && i < N && (s.pcs[i].WaitUp? || s.pcs[i].SigUp? || s.pcs[i].LeaveUp?)
    ensures Step(client, s, i).pcs[i] != s.pcs[i]
  {
  }
}
