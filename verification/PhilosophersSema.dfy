/** The dining philosophers with semaphores: one for the critical section, and one for each philosopher. */
module PhilosophersSema {
  import opened Semaphores
  import P = Philosophers

  const N: nat := P.N

  /** Points of a philosopher's round, each before one access to what is shared. */
  datatype Point =
    | Think
    | TakeHungry | TakeTest | TakeEat | TakeUp | TakeLeave | DownOwn
    | Dine
    | PutThink | LeftTest | LeftEat | LeftUp | RightTest | RightEat | RightUp | PutLeave

  /** Asleep on the mutex, to go on at a point; or on the philosopher's own semaphore. */
  datatype Pc = At(point: Point) | ForMutex(resume: Point) | ForFork

  datatype State = State(pcs: seq<Pc>, mutex: Sem, own: seq<Sem>, meals: seq<P.Meal>)

  ghost predicate Shape(s: State) { |s.pcs| == |s.own| == |s.meals| == N }

  function Start(): State {
    State(seq(N, _ => At(Think)), Sem(1, []), seq(N, _ => Sem(0, [])), seq(N, _ => P.THINKING))
  }

  // ---- One step of one philosopher ----

  function Goto(s: State, i: nat, p: Point): State
    requires i < |s.pcs|
  {
    s.(pcs := s.pcs[i := At(p)])
  }

  function SetMeal(s: State, i: nat, k: nat, m: P.Meal, next: Point): State
    requires i < |s.pcs| && k < |s.meals|
  {
    Goto(s, i, next).(meals := s.meals[k := m])
  }

  function DownMutex(s: State, i: nat, p: Point): State
    requires i < |s.pcs|
  {
    var (m, through) := Down(s.mutex, i);
    s.(mutex := m, pcs := s.pcs[i := if through then At(p) else ForMutex(p)])
  }

  /** A sleeper goes on where it stopped, owning what it was waiting for. */
  function Woken(pcs: seq<Pc>, woken: Option<Pid>): seq<Pc> {
    if woken.None? || woken.value >= |pcs| then pcs
    else match pcs[woken.value]
      case ForMutex(r) => pcs[woken.value := At(r)]
      case ForFork => pcs[woken.value := At(Dine)]
      case At(_) => pcs
  }

  function UpMutex(s: State, i: nat, p: Point): State
    requires i < |s.pcs|
  {
    var (m, woken) := Up(s.mutex);
    s.(mutex := m, pcs := Woken(s.pcs[i := At(p)], woken))
  }

  function DownFork(s: State, i: nat): State
    requires i < |s.pcs| && i < |s.own|
  {
    var (m, through) := Down(s.own[i], i);
    s.(own := s.own[i := m], pcs := s.pcs[i := if through then At(Dine) else ForFork])
  }

  function UpFork(s: State, i: nat, k: nat, p: Point): State
    requires i < |s.pcs| && k < |s.own|
  {
    var (m, woken) := Up(s.own[k]);
    s.(own := s.own[k := m], pcs := Woken(s.pcs[i := At(p)], woken))
  }

  function Test(s: State, i: nat, k: nat, yes: Point, no: Point): State
    requires i < |s.pcs| && |s.meals| == N && k < N
  {
    Goto(s, i, if P.CanEat(s.meals, k) then yes else no)
  }

  function Step(s: State, i: nat): State
    requires |s.pcs| == |s.own| == |s.meals| == N && i < N
  {
    var l, r := P.Left(i), P.Right(i);
    match s.pcs[i]
    case ForMutex(_) => s
    case ForFork => s
    case At(p) =>
      match p
      case Think => DownMutex(s, i, TakeHungry)
      case TakeHungry => SetMeal(s, i, i, P.HUNGRY, TakeTest)
      case TakeTest => Test(s, i, i, TakeEat, TakeLeave)
      case TakeEat => SetMeal(s, i, i, P.EATING, TakeUp)
      case TakeUp => UpFork(s, i, i, TakeLeave)
      case TakeLeave => UpMutex(s, i, DownOwn)
      case DownOwn => DownFork(s, i)
      case Dine => DownMutex(s, i, PutThink)
      case PutThink => SetMeal(s, i, i, P.THINKING, LeftTest)
      case LeftTest => Test(s, i, l, LeftEat, RightTest)
      case LeftEat => SetMeal(s, i, l, P.EATING, LeftUp)
      case LeftUp => UpFork(s, i, l, RightTest)
      case RightTest => Test(s, i, r, RightEat, PutLeave)
      case RightEat => SetMeal(s, i, r, P.EATING, RightUp)
      case RightUp => UpFork(s, i, r, PutLeave)
      case PutLeave => UpMutex(s, i, Think)
  }

  // ---- The invariant ----

  predicate Outside(p: Point) { p == Think || p == DownOwn || p == Dine }

  predicate IsInside(pc: Pc) { pc.At? && !Outside(pc.point) }

  /** The mutex is one when nobody is inside, and its sleepers are those waiting for it, each once. */
  ghost predicate MutexOk(s: State, h: Option<Pid>)
    requires Shape(s)
  {
    && Sound(s.mutex) && s.mutex.value == (if h.None? then 1 else 0) && (h.Some? ==> h.value < N)
    && (forall k :: 0 <= k < N ==> (IsInside(s.pcs[k]) <==> h == Some(k)))
    && (forall k :: k in s.mutex.queue ==> k < N)
    && (forall k :: 0 <= k < N ==> (k in s.mutex.queue <==> s.pcs[k].ForMutex?))
  }

  /** The philosopher inside is about to up k's semaphore. */
  ghost predicate Pending(s: State, h: Option<Pid>, k: nat)
    requires Shape(s)
  {
    h.Some? && h.value < N &&
    match s.pcs[h.value]
    case At(TakeUp) => h.value == k
    case At(LeftUp) => P.Left(h.value) == k
    case At(RightUp) => P.Right(h.value) == k
    case _ => false
  }

  /** The own semaphore of k: one exactly while k is owed its forks and has not yet come for them. */
  ghost predicate ForkSem(s: State, h: Option<Pid>, k: nat)
    requires Shape(s) && k < N
  {
    && s.own[k].queue == (if s.pcs[k].ForFork? then [k] else [])
    && s.own[k].value == (if Owed(s, k) && !Pending(s, h, k) then 1 else 0)
    && (Pending(s, h, k) ==> Owed(s, k) || s.pcs[k].ForFork?)
  }

  /** k has been made to eat but has not been told yet. */
  ghost predicate Owed(s: State, k: nat)
    requires Shape(s) && k < N
  {
    s.meals[k] == P.EATING && (s.pcs[k] == At(TakeUp) || s.pcs[k] == At(TakeLeave) || s.pcs[k] == At(DownOwn))
  }

  /** What each philosopher's state is at each point. */
  ghost predicate Mine(s: State, h: Option<Pid>, k: nat)
    requires Shape(s) && k < N
  {
    var m := s.meals[k];
    true == match s.pcs[k]
    case ForMutex(r) => (r == TakeHungry && m == P.THINKING) || (r == PutThink && m == P.EATING)
    case ForFork => m == P.HUNGRY || (m == P.EATING && Pending(s, h, k))
    case At(p) =>
      match p
      case Think => m == P.THINKING
      case TakeHungry => m == P.THINKING
      case TakeTest => m == P.HUNGRY
      case TakeEat => P.CanEat(s.meals, k)
      case TakeUp => m == P.EATING
      case TakeLeave => m != P.THINKING
      case DownOwn => m != P.THINKING
      case Dine => m == P.EATING
      case PutThink => m == P.EATING
      case LeftEat => m == P.THINKING && P.CanEat(s.meals, P.Left(k))
      case RightEat => m == P.THINKING && P.CanEat(s.meals, P.Right(k))
      case LeftUp => m == P.THINKING && s.meals[P.Left(k)] == P.EATING
      case RightUp => m == P.THINKING && s.meals[P.Right(k)] == P.EATING
      case _ => m == P.THINKING
  }

  ghost predicate ForksApart(s: State, k: nat)
    requires Shape(s) && k < N
  {
    s.meals[k] == P.EATING ==> s.meals[P.Left(k)] != P.EATING && s.meals[P.Right(k)] != P.EATING
  }

  /** A hungry philosopher who could eat is about to be tested by the one inside. */
  ghost predicate Remembered(s: State, h: Option<Pid>, k: nat)
    requires Shape(s) && k < N
  {
    P.CanEat(s.meals, k) ==>
      h.Some? && h.value < N &&
      match s.pcs[h.value]
      case At(TakeTest) => h.value == k
      case At(TakeEat) => h.value == k
      case At(LeftTest) => P.Left(h.value) == k || P.Right(h.value) == k
      case At(LeftEat) => P.Left(h.value) == k || P.Right(h.value) == k
      case At(LeftUp) => P.Right(h.value) == k
      case At(RightTest) => P.Right(h.value) == k
      case At(RightEat) => P.Right(h.value) == k
      case _ => false
  }

  ghost predicate Each(s: State, h: Option<Pid>, k: nat)
    requires Shape(s) && k < N
  {
    Mine(s, h, k) && ForkSem(s, h, k) && ForksApart(s, k) && Remembered(s, h, k)
  }

  ghost predicate Inv(s: State, h: Option<Pid>) {
    Shape(s) && MutexOk(s, h) && forall k :: 0 <= k < N ==> Each(s, h, k)
  }

  lemma StartOk()
    ensures Inv(Start(), None)
  {
  }

  // ---- Steps of the philosopher inside ----

  predicate Computes(p: Point) {
    p == TakeHungry || p == TakeTest || p == TakeEat || p == PutThink || p == LeftTest || p == LeftEat || p == RightTest || p == RightEat
  }

  /** Philosopher i moves to a point inside, and one meal may change with it. */
  ghost predicate Moves(s: State, i: nat, k: nat, m: P.Meal, p: Point, t: State)
    requires Shape(s) && i < N && k < N
  {
    !Outside(p) && t == State(s.pcs[i := At(p)], s.mutex, s.own, s.meals[k := m])
  }

  lemma MovesMutex(s: State, i: nat, k: nat, m: P.Meal, p: Point, t: State)
    requires Shape(s) && i < N && k < N && MutexOk(s, Some(i)) && Moves(s, i, k, m, p, t)
    ensures Shape(t) && MutexOk(t, Some(i))
  {
    assert IsInside(s.pcs[i]);
  }

  /** What the step changes for one philosopher at a time. */
  lemma MoveMine(s: State, i: nat, t: State, k: nat)
    requires Shape(s) && i < N && s.pcs[i].At? && Computes(s.pcs[i].point) && t == Step(s, i) && k < N && Shape(t)
    requires Mine(s, Some(i), i) && Mine(s, Some(i), k) && (IsInside(s.pcs[k]) <==> k == i)
    ensures Mine(t, Some(i), k)
  {
  }

  lemma MoveFork(s: State, i: nat, t: State, k: nat)
    requires Inv(s, Some(i)) && i < N && s.pcs[i].At? && Computes(s.pcs[i].point) && t == Step(s, i) && k < N && Shape(t)
    ensures ForkSem(t, Some(i), k)
  {
    assert Mine(s, Some(i), i) && Mine(s, Some(i), k) && ForkSem(s, Some(i), k) && (IsInside(s.pcs[k]) <==> k == i) by { assert Each(s, Some(i), i) && Each(s, Some(i), k); }
    hide Inv;
    if k == i { MoveForkSelf(s, i, t); } else { MoveForkOther(s, i, t, k); }
  }

  lemma MoveForkSelf(s: State, i: nat, t: State)
    requires Shape(s) && Shape(t) && i < N && s.pcs[i].At? && Computes(s.pcs[i].point) && t == Step(s, i)
    requires Mine(s, Some(i), i) && ForkSem(s, Some(i), i)
    ensures ForkSem(t, Some(i), i)
  {
  }

  lemma MoveForkOther(s: State, i: nat, t: State, k: nat)
    requires Shape(s) && Shape(t) && i < N && k < N && k != i && s.pcs[i].At? && Computes(s.pcs[i].point) && t == Step(s, i)
    requires Mine(s, Some(i), i) && Mine(s, Some(i), k) && ForkSem(s, Some(i), k) && !IsInside(s.pcs[k])
    ensures ForkSem(t, Some(i), k)
  {
    assert t.pcs[k] == s.pcs[k] && t.own == s.own && !Pending(s, Some(i), k);
    assert t.meals[k] != s.meals[k] ==> Pending(t, Some(i), k) && s.meals[k] == P.HUNGRY;
    assert Pending(t, Some(i), k) ==> t.meals[k] == P.EATING && s.meals[k] == P.HUNGRY;
    assert s.meals[k] == P.HUNGRY ==> s.pcs[k] == At(DownOwn) || s.pcs[k] == ForFork;
    hide Step, Pending, Mine;
  }

  lemma MoveApart(s: State, i: nat, t: State, k: nat)
    requires Shape(s) && i < N && s.pcs[i].At? && Computes(s.pcs[i].point) && t == Step(s, i) && k < N && Shape(t)
    requires Mine(s, Some(i), i) && ForksApart(s, k)
    ensures ForksApart(t, k)
  {
  }

  lemma MoveRemembered(s: State, i: nat, t: State, k: nat)
    requires Shape(s) && i < N && s.pcs[i].At? && Computes(s.pcs[i].point) && t == Step(s, i) && k < N && Shape(t)
    requires Mine(s, Some(i), i) && Remembered(s, Some(i), k)
    ensures Remembered(t, Some(i), k)
  {
  }

  lemma MoveKeeps(s: State, i: nat)
    requires Inv(s, Some(i)) && i < N && s.pcs[i].At? && Computes(s.pcs[i].point)
    ensures Inv(Step(s, i), Some(i))
  {
    var t := Step(s, i);
    assert Shape(t) && MutexOk(t, Some(i)) by { MoveMutex(s, i, t); }
    forall k | 0 <= k < N ensures Each(t, Some(i), k) {
      assert Each(s, Some(i), i) && Each(s, Some(i), k) && (IsInside(s.pcs[k]) <==> k == i);
      hide Mine, Remembered, ForkSem, ForksApart;
      MoveMine(s, i, t, k);
      MoveFork(s, i, t, k);
      MoveApart(s, i, t, k);
      MoveRemembered(s, i, t, k);
    }
  }

  lemma MoveMutex(s: State, i: nat, t: State)
    requires Shape(s) && MutexOk(s, Some(i)) && i < N && s.pcs[i].At? && Computes(s.pcs[i].point) && t == Step(s, i)
    ensures Shape(t) && MutexOk(t, Some(i))
  {
    var l, r := P.Left(i), P.Right(i);
    match s.pcs[i].point
    case TakeHungry => MovesMutex(s, i, i, P.HUNGRY, TakeTest, t);
    case TakeTest => MovesMutex(s, i, i, s.meals[i], if P.CanEat(s.meals, i) then TakeEat else TakeLeave, t);
    case TakeEat => MovesMutex(s, i, i, P.EATING, TakeUp, t);
    case PutThink => MovesMutex(s, i, i, P.THINKING, LeftTest, t);
    case LeftTest => MovesMutex(s, i, i, s.meals[i], if P.CanEat(s.meals, l) then LeftEat else RightTest, t);
    case LeftEat => MovesMutex(s, i, l, P.EATING, LeftUp, t);
    case RightTest => MovesMutex(s, i, i, s.meals[i], if P.CanEat(s.meals, r) then RightEat else PutLeave, t);
    case RightEat => MovesMutex(s, i, r, P.EATING, RightUp, t);
    case _ =>
  }

  // ---- Entering and leaving ----

  lemma DownMutexKeeps(s: State, h: Option<Pid>, i: nat, p: Point, t: State)
    requires Inv(s, h) && i < N && t == DownMutex(s, i, p)
    requires (s.pcs[i] == At(Think) && p == TakeHungry) || (s.pcs[i] == At(Dine) && p == PutThink)
    ensures Inv(t, if h.None? then Some(i) else h)
  {
    var g := if h.None? then Some(i) else h;
    assert Shape(t) && MutexOk(t, g) by { DownMutexOk(s, h, i, p, t); }
    assert h != Some(i) by { assert IsInside(s.pcs[i]) <==> h == Some(i); }
    hide MutexOk;
    forall k | 0 <= k < N ensures Each(t, g, k) {
      assert Each(s, h, k);
      SameFor(s, h, t, g, i, k);
    }
  }

  lemma DownMutexOk(s: State, h: Option<Pid>, i: nat, p: Point, t: State)
    requires Shape(s) && MutexOk(s, h) && i < N && t == DownMutex(s, i, p) && s.pcs[i].At? && Outside(s.pcs[i].point) && !Outside(p)
    ensures Shape(t) && MutexOk(t, if h.None? then Some(i) else h)
  {
    assert IsInside(s.pcs[i]) <==> h == Some(i);
    assert i !in s.mutex.queue;
    forall k | 0 <= k < N ensures k in t.mutex.queue <==> t.pcs[k].ForMutex? {
      assert k in s.mutex.queue <==> s.pcs[k].ForMutex?;
    }
  }

  /** Where nobody's meal or semaphore changes, and only i moves, to or from a quiet point. */
  lemma SameFor(s: State, h: Option<Pid>, t: State, g: Option<Pid>, i: nat, k: nat)
    requires Shape(s) && Shape(t) && i < N && k < N && Each(s, h, k) && t.meals == s.meals && t.own == s.own && h != Some(i)
    requires g == h || (h.None? && g == Some(i))
    requires (s.pcs[i] == At(Think) && t.pcs == s.pcs[i := t.pcs[i]] && (t.pcs[i] == At(TakeHungry) || t.pcs[i] == ForMutex(TakeHungry)))
          || (s.pcs[i] == At(Dine) && t.pcs == s.pcs[i := t.pcs[i]] && (t.pcs[i] == At(PutThink) || t.pcs[i] == ForMutex(PutThink)))
    ensures Each(t, g, k)
  {
  }

  lemma UpMutexKeeps(s: State, i: nat, p: Point, t: State)
    requires Inv(s, Some(i)) && i < N && t == UpMutex(s, i, p)
    requires (s.pcs[i] == At(TakeLeave) && p == DownOwn) || (s.pcs[i] == At(PutLeave) && p == Think)
    ensures Inv(t, if s.mutex.queue == [] then None else Some(s.mutex.queue[0]))
  {
    var g := if s.mutex.queue == [] then None else Some(s.mutex.queue[0]);
    assert Shape(t) && MutexOk(t, g) by {
      forall k | 0 <= k < N && s.pcs[k].ForMutex? ensures !Outside(s.pcs[k].resume) { assert Each(s, Some(i), k); }
      UpMutexOk(s, i, p, t);
    }
    if g.Some? {
      assert g.value in s.mutex.queue;
      assert g.value < N && s.pcs[g.value].ForMutex?;
      assert Each(s, Some(i), g.value);
    }
    hide MutexOk;
    forall k | 0 <= k < N ensures Each(t, g, k) {
      assert Each(s, Some(i), k);
      LeaveFor(s, t, g, i, k);
    }
  }

  lemma UpMutexOk(s: State, i: nat, p: Point, t: State)
    requires Shape(s) && MutexOk(s, Some(i)) && i < N && t == UpMutex(s, i, p) && Outside(p)
    requires forall k :: 0 <= k < N && s.pcs[k].ForMutex? ==> !Outside(s.pcs[k].resume)
    ensures Shape(t) && MutexOk(t, if s.mutex.queue == [] then None else Some(s.mutex.queue[0]))
  {
    var q := s.mutex.queue;
    assert IsInside(s.pcs[i]);
    assert i !in q;
    if q != [] {
      var w := q[0];
      assert w in q;
      forall k | 0 <= k < N ensures k in q[1..] <==> t.pcs[k].ForMutex? {
        assert k in q <==> k == w || k in q[1..];
        assert k in q <==> s.pcs[k].ForMutex?;
      }
      forall k | k in q[1..] ensures k < N { assert k in q; }
      forall k | 0 <= k < N ensures IsInside(t.pcs[k]) <==> k == w { assert IsInside(s.pcs[k]) <==> k == i; }
    } else {
      forall k | 0 <= k < N ensures !IsInside(t.pcs[k]) && !t.pcs[k].ForMutex? { assert IsInside(s.pcs[k]) <==> k == i; assert k !in q; }
    }
  }

  lemma LeaveFor(s: State, t: State, g: Option<Pid>, i: nat, k: nat)
    requires Shape(s) && Shape(t) && i < N && k < N && Each(s, Some(i), k) && t.meals == s.meals && t.own == s.own
    requires s.pcs[i] == At(TakeLeave) || s.pcs[i] == At(PutLeave)
    requires var pcs := s.pcs[i := At(if s.pcs[i] == At(TakeLeave) then DownOwn else Think)];
      && (g.None? ==> t.pcs == pcs)
      && (g.Some? ==> g.value < N && g.value != i && s.pcs[g.value].ForMutex? && Each(s, Some(i), g.value))
      && (g.Some? ==> t.pcs == pcs[g.value := At(s.pcs[g.value].resume)])
    ensures Each(t, g, k)
  {
  }

  // ---- The philosophers' own semaphores ----

  lemma DownForkKeeps(s: State, h: Option<Pid>, i: nat, t: State)
    requires Inv(s, h) && i < N && s.pcs[i] == At(DownOwn) && t == DownFork(s, i)
    ensures Inv(t, h)
  {
    assert IsInside(s.pcs[i]) <==> h == Some(i);
    assert Each(s, h, i);
    assert Shape(t) && MutexOk(t, h) by { DownForkMutex(s, h, i, t); }
    hide MutexOk;
    forall k | 0 <= k < N ensures Each(t, h, k) {
      assert Each(s, h, k);
      DownForkFor(s, h, i, t, k);
    }
  }

  lemma DownForkFor(s: State, h: Option<Pid>, i: nat, t: State, k: nat)
    requires Shape(s) && Shape(t) && i < N && k < N && s.pcs[i] == At(DownOwn) && t == DownFork(s, i)
    requires Each(s, h, i) && Each(s, h, k) && h != Some(i)
    ensures Each(t, h, k)
  {
    assert Pending(t, h, k) == Pending(s, h, k);
    hide Pending;
    assert Remembered(t, h, k) && ForksApart(t, k);
    hide Remembered, ForksApart;
    if k != i { assert t.pcs[k] == s.pcs[k] && t.own[k] == s.own[k]; }
  }

  lemma DownForkMutex(s: State, h: Option<Pid>, i: nat, t: State)
    requires Shape(s) && MutexOk(s, h) && i < N && s.pcs[i] == At(DownOwn) && t == DownFork(s, i)
    ensures Shape(t) && MutexOk(t, h)
  {
    forall k | 0 <= k < N
      ensures (IsInside(t.pcs[k]) <==> h == Some(k)) && (k in t.mutex.queue <==> t.pcs[k].ForMutex?)
    {
      assert (IsInside(s.pcs[k]) <==> h == Some(k)) && (k in s.mutex.queue <==> s.pcs[k].ForMutex?);
    }
  }

  /** Philosopher i tells philosopher k, which is asleep or on its way, that it may eat. */
  lemma UpForkKeeps(s: State, i: nat, k: nat, p: Point, t: State)
    requires Inv(s, Some(i)) && i < N && k < N && Pending(s, Some(i), k) && t == UpFork(s, i, k, p)
    requires (s.pcs[i] == At(TakeUp) && p == TakeLeave) || (s.pcs[i] == At(LeftUp) && p == RightTest) || (s.pcs[i] == At(RightUp) && p == PutLeave)
    ensures Inv(t, Some(i))
  {
    assert Each(s, Some(i), i) && Each(s, Some(i), k);
    assert Shape(t) && MutexOk(t, Some(i)) by { UpForkMutex(s, i, k, p, t); }
    forall j | 0 <= j < N ensures Each(t, Some(i), j) {
      assert Each(s, Some(i), j) && (IsInside(s.pcs[j]) <==> j == i);
      UpForkFor(s, i, k, p, t, j);
    }
  }

  lemma UpForkMutex(s: State, i: nat, k: nat, p: Point, t: State)
    requires Shape(s) && MutexOk(s, Some(i)) && i < N && k < N && t == UpFork(s, i, k, p) && !Outside(p)
    requires s.own[k].queue == (if s.pcs[k].ForFork? then [k] else [])
    ensures Shape(t) && MutexOk(t, Some(i))
  {
    assert IsInside(s.pcs[i]);
    forall j | 0 <= j < N
      ensures (IsInside(t.pcs[j]) <==> j == i) && (j in t.mutex.queue <==> t.pcs[j].ForMutex?)
    {
      assert (IsInside(s.pcs[j]) <==> j == i) && (j in s.mutex.queue <==> s.pcs[j].ForMutex?);
    }
  }

  ghost predicate UpPoints(s: State, i: nat, p: Point)
    requires Shape(s) && i < N
  {
    (s.pcs[i] == At(TakeUp) && p == TakeLeave) || (s.pcs[i] == At(LeftUp) && p == RightTest) || (s.pcs[i] == At(RightUp) && p == PutLeave)
  }

  lemma UpForkFor(s: State, i: nat, k: nat, p: Point, t: State, j: nat)
    requires Shape(s) && Shape(t) && i < N && k < N && j < N && Pending(s, Some(i), k) && t == UpFork(s, i, k, p)
    requires UpPoints(s, i, p)
    requires Each(s, Some(i), i) && Each(s, Some(i), k) && Each(s, Some(i), j) && (IsInside(s.pcs[j]) <==> j == i)
    ensures Each(t, Some(i), j)
  {
    assert Mine(t, Some(i), j) by { UpForkMine(s, i, k, p, t, j); }
    assert ForkSem(t, Some(i), j) by { UpForkSem(s, i, k, p, t, j); }
    assert Remembered(t, Some(i), j) by { UpForkRemembered(s, i, k, p, t, j); }
    hide Mine, ForkSem, Remembered;
  }

  lemma UpForkMine(s: State, i: nat, k: nat, p: Point, t: State, j: nat)
    requires Shape(s) && Shape(t) && i < N && k < N && j < N && Pending(s, Some(i), k) && t == UpFork(s, i, k, p)
    requires UpPoints(s, i, p)
    requires Each(s, Some(i), i) && Each(s, Some(i), k) && Each(s, Some(i), j) && (IsInside(s.pcs[j]) <==> j == i)
    ensures Mine(t, Some(i), j)
  {
    hide ForksApart, Remembered;
  }

  lemma UpForkSem(s: State, i: nat, k: nat, p: Point, t: State, j: nat)
    requires Shape(s) && Shape(t) && i < N && k < N && j < N && Pending(s, Some(i), k) && t == UpFork(s, i, k, p)
    requires UpPoints(s, i, p)
    requires Each(s, Some(i), i) && Each(s, Some(i), k) && Each(s, Some(i), j) && (IsInside(s.pcs[j]) <==> j == i)
    ensures ForkSem(t, Some(i), j)
  {
    hide ForksApart, Remembered;
  }

  lemma UpForkRemembered(s: State, i: nat, k: nat, p: Point, t: State, j: nat)
    requires Shape(s) && Shape(t) && i < N && k < N && j < N && Pending(s, Some(i), k) && t == UpFork(s, i, k, p)
    requires UpPoints(s, i, p)
    requires Each(s, Some(i), i) && Each(s, Some(i), k) && Each(s, Some(i), j) && (IsInside(s.pcs[j]) <==> j == i)
    ensures Remembered(t, Some(i), j)
  {
    hide ForksApart;
  }

  // ---- Every interleaving ----

  /** The philosopher inside after a step. */
  function Holder(s: State, h: Option<Pid>, i: nat): Option<Pid>
    requires Shape(s) && i < N
  {
    match s.pcs[i]
    case At(Think) => if h.None? then Some(i) else h
    case At(Dine) => if h.None? then Some(i) else h
    case At(TakeLeave) => if s.mutex.queue == [] then None else Some(s.mutex.queue[0])
    case At(PutLeave) => if s.mutex.queue == [] then None else Some(s.mutex.queue[0])
    case _ => h
  }

  lemma StepKeeps(s: State, h: Option<Pid>, i: nat)
    requires Inv(s, h) && i < N
    ensures Inv(Step(s, i), Holder(s, h, i))
  {
    var t := Step(s, i);
    assert IsInside(s.pcs[i]) <==> h == Some(i);
    assert s.pcs[i] == At(LeftUp) ==> Pending(s, h, P.Left(i));
    hide Inv;
    match s.pcs[i]
    case ForMutex(_) =>
    case ForFork =>
    case At(p) =>
      match p
      case Think => DownMutexKeeps(s, h, i, TakeHungry, t);
      case Dine => DownMutexKeeps(s, h, i, PutThink, t);
      case TakeLeave => UpMutexKeeps(s, i, DownOwn, t);
      case PutLeave => UpMutexKeeps(s, i, Think, t);
      case DownOwn => DownForkKeeps(s, h, i, t);
      case TakeUp => UpForkKeeps(s, i, i, TakeLeave, t);
      case LeftUp => UpForkKeeps(s, i, P.Left(i), RightTest, t);
      case RightUp => UpForkKeeps(s, i, P.Right(i), PutLeave, t);
      case _ => MoveKeeps(s, i);
  }

  function Run(s: State, schedule: seq<nat>): State
    requires |s.pcs| == |s.own| == |s.meals| == N && forall k :: 0 <= k < |schedule| ==> schedule[k] < N
  {
    if schedule == [] then s
    else
      var t := Run(s, schedule[..|schedule| - 1]);
      if |t.pcs| == |t.own| == |t.meals| == N then Step(t, schedule[|schedule| - 1]) else t
  }

  lemma {:induction false} RunKeeps(schedule: seq<nat>) returns (h: Option<Pid>)
    requires forall k :: 0 <= k < |schedule| ==> schedule[k] < N
    ensures Inv(Run(Start(), schedule), h)
  {
    hide Inv;
    if schedule == [] {
      StartOk();
      h := None;
    } else {
      var front := schedule[..|schedule| - 1];
      var g := RunKeeps(front);
      assert Shape(Run(Start(), front)) by { HasShape(Run(Start(), front), g); }
      StepKeeps(Run(Start(), front), g, schedule[|schedule| - 1]);
      h := Holder(Run(Start(), front), g, schedule[|schedule| - 1]);
    }
  }

  lemma HasShape(s: State, h: Option<Pid>)
    requires Inv(s, h)
    ensures Shape(s)
  {
  }

  /**
   * In every interleaving: no two neighbours eat, a philosopher back from taking its forks is eating, at most
   * one philosopher is inside, and with nobody inside a hungry philosopher has an eating neighbour.
   */
  lemma TableIsSafe(schedule: seq<nat>, i: nat, j: nat)
    requires (forall k :: 0 <= k < |schedule| ==> schedule[k] < N) && i < N && j < N
    ensures var s := Run(Start(), schedule);
      && Shape(s)
      && !(s.meals[i] == P.EATING && s.meals[(i + 1) % 5] == P.EATING)
      && (s.pcs[i] == At(Think) ==> s.meals[i] == P.THINKING)
      && (s.pcs[i] == At(Dine) ==> s.meals[i] == P.EATING)
      && (IsInside(s.pcs[i]) && IsInside(s.pcs[j]) ==> i == j)
      && ((forall k :: 0 <= k < N ==> !IsInside(s.pcs[k])) && s.meals[i] == P.HUNGRY ==>
           s.meals[(i + 4) % 5] == P.EATING || s.meals[(i + 1) % 5] == P.EATING)
      && (s.pcs[i].ForFork? && s.meals[i] == P.EATING ==> exists k :: 0 <= k < N && IsInside(s.pcs[k]))
  {
    var h := RunKeeps(schedule);
    SafeAt(Run(Start(), schedule), h, i, j);
    hide Run, Inv;
  }

  lemma SafeAt(s: State, h: Option<Pid>, i: nat, j: nat)
    requires Inv(s, h) && i < N && j < N
    ensures Shape(s) && !(s.meals[i] == P.EATING && s.meals[(i + 1) % 5] == P.EATING)
    ensures (s.pcs[i] == At(Think) ==> s.meals[i] == P.THINKING) && (s.pcs[i] == At(Dine) ==> s.meals[i] == P.EATING)
    ensures IsInside(s.pcs[i]) && IsInside(s.pcs[j]) ==> i == j
    ensures (forall k :: 0 <= k < N ==> !IsInside(s.pcs[k])) && s.meals[i] == P.HUNGRY ==>
              s.meals[(i + 4) % 5] == P.EATING || s.meals[(i + 1) % 5] == P.EATING
    ensures s.pcs[i].ForFork? && s.meals[i] == P.EATING ==> exists k :: 0 <= k < N && IsInside(s.pcs[k])
  {
    assert P.Right(i) == (i + 1) % 5 && P.Left(i) == (i + 4) % 5;
    assert Each(s, h, i);
    assert (IsInside(s.pcs[i]) <==> h == Some(i)) && (IsInside(s.pcs[j]) <==> h == Some(j));
    if h.Some? { assert IsInside(s.pcs[h.value]); }
    hide ForkSem;
  }

  /** No deadlock: in every interleaving some philosopher is not asleep, and its next step goes on to another point. */
  lemma SomeoneCanMove(schedule: seq<nat>) returns (i: nat)
    requires forall k :: 0 <= k < |schedule| ==> schedule[k] < N
    ensures var s := Run(Start(), schedule);
      i < N && Shape(s) && s.pcs[i].At? && Step(s, i).pcs[i] != s.pcs[i]
  {
    var h := RunKeeps(schedule);
    var s := Run(Start(), schedule);
    i := Mover(s, h);
    MoverMoves(s, h, i);
  }

  lemma Mover(s: State, h: Option<Pid>) returns (i: nat)
    requires Inv(s, h)
    ensures i < N && s.pcs[i].At?
  {
    if h.Some? {
      i := h.value;
      assert IsInside(s.pcs[i]);
    } else {
      NotAllAsleep(s);
      i :| 0 <= i < N && s.pcs[i].At?;
    }
  }

  lemma NotAllAsleep(s: State)
    requires Inv(s, None)
    ensures exists k :: 0 <= k < N && s.pcs[k].At?
  {
    forall k | 0 <= k < N ensures s.pcs[k].At? || (s.pcs[k].ForFork? && s.meals[k] == P.HUNGRY) {
      assert Each(s, None, k) && (k in s.mutex.queue <==> s.pcs[k].ForMutex?);
    }
    assert Each(s, None, 0) && Remembered(s, None, 0);
  }

  lemma MoverMoves(s: State, h: Option<Pid>, i: nat)
    requires Inv(s, h) && i < N && s.pcs[i].At?
    ensures Step(s, i).pcs[i] != s.pcs[i]
  {
    assert i !in s.mutex.queue by { assert i in s.mutex.queue <==> s.pcs[i].ForMutex?; }
    assert forall k :: 0 <= k < N ==> i !in s.own[k].queue by {
      forall k | 0 <= k < N ensures i !in s.own[k].queue { assert Each(s, h, k); }
    }
    hide Inv, P.CanEat;
  }
}
