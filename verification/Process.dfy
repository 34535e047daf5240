/**
 * Processes: who is whose child, who sleeps on what, and who runs next. A process is named by its pid. The
 * kernel is not preempted, so each operation is one step; interrupts may wake sleepers between steps.
 */
module Process {
  const IDLE := 0
  const INIT := 1

  datatype Life = Sleeping | Runnable | Zombie

  /** A process waiting for a child remembers which: pid 0 asks for any. */
  datatype Wait = Awake | OnChild(asked: int) | OnTimer | OnKeyboard | OnSemaphore

  datatype Proc = Proc(life: Life, wait: Wait, exiting: bool, code: int, parent: int)

  /** Children are listed youngest first; the run queue is in order of dispatch. */
  datatype State = State(procs: map<int, Proc>, kids: map<int, seq<int>>, queue: seq<int>, current: int)

  predicate Interruptible(w: Wait) { w.OnChild? || w.OnTimer? || w.OnKeyboard? }

  predicate Asks(asked: int, child: int) { asked == 0 || asked == child }

  // ---- The kernel's operations ----

  function Enqueue(s: State, p: int): State {
    if p == IDLE then s else s.(queue := s.queue + [p])
  }

  function Wakeup(s: State, p: int): State
    requires p in s.procs
  {
    if s.procs[p].life == Runnable then s
    else
      var t := s.(procs := s.procs[p := s.procs[p].(life := Runnable, wait := Awake)]);
      if p != s.current then Enqueue(t, p) else t
  }

  function Schedule(s: State): State
    requires s.current in s.procs
  {
    var t := if s.procs[s.current].life == Runnable then Enqueue(s, s.current) else s;
    if t.queue == [] then t.(current := IDLE) else t.(current := t.queue[0], queue := t.queue[1..])
  }

  function Link(s: State, child: int, parent: int): State
    requires parent in s.kids
  {
    s.(kids := s.kids[child := []][parent := [child] + s.kids[parent]])
  }

  function Fork(s: State, child: int): State
    requires s.current in s.kids && child != s.current
  {
    var t := s.(procs := s.procs[child := Proc(Sleeping, Awake, false, 0, s.current)]);
    Wakeup(Link(t, child, s.current), child)
  }

  /** Hand the youngest child to init, waking init if the child is a zombie init may collect. */
  function AdoptOne(s: State): State
    requires s.current in s.kids && s.kids[s.current] != [] && INIT in s.kids && INIT in s.procs
    requires s.kids[s.current][0] in s.procs
  {
    var c := s.kids[s.current][0];
    var t := s.(kids := s.kids[s.current := s.kids[s.current][1..]][INIT := [c] + s.kids[INIT]],
                procs := s.procs[c := s.procs[c].(parent := INIT)]);
    if t.procs[c].life == Zombie && t.procs[INIT].wait.OnChild? then Wakeup(t, INIT) else t
  }

  predicate Known(s: State, kids: seq<int>) {
    forall i :: 0 <= i < |kids| ==> kids[i] in s.procs
  }

  /** Every child is at hand to be adopted. */
  ghost predicate Orphans(s: State) {
    && s.current in s.kids && s.current != INIT && INIT in s.kids && INIT in s.procs
    && Known(s, s.kids[s.current])
  }

  function AdoptAll(s: State): (t: State)
    requires Orphans(s)
    ensures t.procs.Keys == s.procs.Keys && t.current == s.current
    decreases |s.kids[s.current]|
  {
    if s.kids[s.current] == [] then s
    else
      AdoptAll(AdoptOne(s))
  }

  function Die(s: State, code: int): State
    requires s.current in s.procs && s.procs[s.current].parent in s.procs
  {
    var p := s.procs[s.current].parent;
    var t := s.(procs := s.procs[s.current := s.procs[s.current].(life := Zombie, code := code)]);
    if t.procs[p].wait.OnChild? then Wakeup(t, p) else t
  }

  function Exit(s: State, code: int): State
    requires Orphans(s) && s.current in s.procs && s.procs[s.current].parent in s.procs
  {
    Schedule(AdoptAll(Die(s, code)))
  }

  /** The first zombie among the children asked for. */
  function Collectable(s: State, kids: seq<int>, asked: int): (i: nat)
    requires Known(s, kids)
    ensures i <= |kids|
    ensures i < |kids| ==> Asks(asked, kids[i]) && s.procs[kids[i]].life == Zombie
    ensures forall j :: 0 <= j < i ==> !(Asks(asked, kids[j]) && s.procs[kids[j]].life == Zombie)
  {
    if kids == [] then 0
    else if Asks(asked, kids[0]) && s.procs[kids[0]].life == Zombie then 0
    else
      var i := Collectable(s, kids[1..], asked);
      assert forall j :: 0 < j < |kids| ==> kids[j] == kids[1..][j - 1];
      i + 1
  }

  function Remove(kids: seq<int>, i: nat): seq<int>
    requires i < |kids|
  {
    kids[..i] + kids[i + 1..]
  }

  function Reap(s: State, i: nat): State
    requires s.current in s.kids && i < |s.kids[s.current]|
  {
    var c := s.kids[s.current][i];
    s.(procs := s.procs - {c}, kids := s.kids[s.current := Remove(s.kids[s.current], i)] - {c})
  }

  /** Collect a zombie child, or sleep if there is a child to wait for, or fail. */
  function WaitFor(s: State, asked: int): State
    requires s.current in s.kids && s.current in s.procs && Known(s, s.kids[s.current])
  {
    var kids := s.kids[s.current];
    var i := Collectable(s, kids, asked);
    if i < |kids| then Reap(s, i)
    else if exists c :: c in kids && Asks(asked, c) then
      Schedule(s.(procs := s.procs[s.current := s.procs[s.current].(life := Sleeping, wait := OnChild(asked))]))
    else s
  }

  /** The look-up by pid never finds idle. */
  function Kill(s: State, p: int): State {
    if p !in s.procs || p == IDLE || s.procs[p].exiting then s
    else
      var t := s.(procs := s.procs[p := s.procs[p].(exiting := true)]);
      if Interruptible(s.procs[p].wait) then Wakeup(t, p) else t
  }

  /** Sleep on a timer, the keyboard or a semaphore. */
  function Doze(s: State, w: Wait): State
    requires s.current in s.procs
  {
    s.(procs := s.procs[s.current := s.procs[s.current].(life := Sleeping, wait := w)])
  }

  datatype Op =
    | DoFork(child: int)
    | DoExit(code: int)
    | DoWait(asked: int)
    | DoKill(pid: int)
    | DoDoze(on: Wait)
    | Interrupt(sleeper: int)
    | Reschedule

  /** What the kernel can do next; a process that is not runnable can only give up the processor. */
  ghost predicate Enabled(s: State, op: Op) {
    var running := s.current in s.procs && s.procs[s.current].life == Runnable && s.current != IDLE;
    match op
    case DoFork(child) => running && child !in s.procs && child > INIT
    case DoExit(_) => running && s.current != INIT
    case DoWait(_) => running
    case DoKill(_) => running
    case DoDoze(on) => running && !on.Awake? && !on.OnChild?
    case Interrupt(p) => p in s.procs && s.procs[p].life == Sleeping && !s.procs[p].wait.OnChild?
    case Reschedule => true
  }

  // ---- What every operation keeps ----

  ghost predicate Distinct(l: seq<int>) {
    forall i, j :: 0 <= i < j < |l| ==> l[i] != l[j]
  }

  /** Every child of p is a process whose parent is p. */
  ghost predicate KidsOk(s: State, p: int)
    requires p in s.kids
  {
    Distinct(s.kids[p]) && forall c :: c in s.kids[p] ==> KidOk(s, p, c)
  }

  ghost predicate KidOk(s: State, p: int, c: int) {
    c in s.procs && s.procs[c].parent == p && c != IDLE
  }

  ghost predicate ParentOk(s: State, c: int)
    requires c in s.procs
  {
    s.procs[c].parent in s.kids && c in s.kids[s.procs[c].parent]
  }

  /** Sibling lists hold every process but idle once, under its parent. */
  ghost predicate Tree(s: State) {
    && s.kids.Keys == s.procs.Keys && IDLE in s.procs && INIT in s.procs && s.current in s.procs
    && (forall p :: p in s.procs ==> p >= IDLE)
    && (forall p :: p in s.kids ==> KidsOk(s, p))
    && (forall c :: c in s.procs && c != IDLE ==> ParentOk(s, c))
  }

  ghost predicate Queued(s: State, p: int) { p in s.queue }

  ghost predicate QueueOk(s: State, p: int) {
    Queued(s, p) <==> p in s.procs && s.procs[p].life == Runnable && p != s.current && p != IDLE
  }

  /** The queue holds exactly the runnable processes that are neither running nor idle, each once. */
  ghost predicate Queue(s: State) {
    Distinct(s.queue) && forall p :: QueueOk(s, p)
  }

  /** A process asleep for a child has one it asked for, and none of those is a zombie. */
  ghost predicate WaitOk(s: State, p: int)
    requires p in s.procs
  {
    && (!s.procs[p].wait.Awake? ==> s.procs[p].life == Sleeping)
    && (s.procs[p].wait.OnChild? ==>
        && p in s.kids
        && (exists c :: c in s.kids[p] && Asks(s.procs[p].wait.asked, c))
        && (forall c :: c in s.kids[p] && Asks(s.procs[p].wait.asked, c) ==> c in s.procs && s.procs[c].life != Zombie))
  }

  ghost predicate Waits(s: State) {
    forall p :: p in s.procs ==> WaitOk(s, p)
  }

  /** A zombie has no children; idle and init are never zombies, and idle never sleeps. */
  ghost predicate Dead(s: State) {
    && (forall p :: p in s.procs && s.procs[p].life == Zombie ==> p in s.kids && s.kids[p] == [])
    && IDLE in s.procs && s.procs[IDLE].life == Runnable && INIT in s.procs && s.procs[INIT].life != Zombie
  }

  /** Parents come strictly before children, from idle down: no process is its own ancestor. */
  ghost predicate Ranked(s: State, rank: map<int, int>) {
    && INIT in rank && rank[INIT] == 1
    && forall c :: c in s.procs && c != IDLE ==>
        && c in rank && s.procs[c].parent in rank && rank[s.procs[c].parent] < rank[c]
        && (c != INIT ==> rank[c] > 1)
  }

  ghost predicate Rooted(s: State) { exists rank :: Ranked(s, rank) }

  ghost predicate Inv(s: State) { Tree(s) && Rooted(s) && Queue(s) && Waits(s) && Dead(s) }

  ghost function Step(s: State, op: Op): State
    requires Inv(s) && Enabled(s, op)
  {
    match op
    case DoFork(child) => Fork(s, child)
    case DoExit(code) => ParentLives(s, s.current); Exit(s, code)
    case DoWait(asked) => ParentLives(s, s.current); WaitFor(s, asked)
    case DoKill(pid) => Kill(s, pid)
    case DoDoze(on) => Doze(s, on)
    case Interrupt(p) => Wakeup(s, p)
    case Reschedule => Schedule(s)
  }

  lemma ParentLives(s: State, c: int)
    requires Tree(s) && Dead(s) && c in s.procs && c != IDLE
    ensures s.procs[c].parent in s.procs && s.procs[s.procs[c].parent].life != Zombie
    ensures Known(s, s.kids[c])
  {
    assert ParentOk(s, c);
    assert KidsOk(s, c);
    forall i | 0 <= i < |s.kids[c]| ensures s.kids[c][i] in s.procs { assert KidOk(s, c, s.kids[c][i]); }
  }

  // ---- Operation by operation ----

  lemma SameTree(s: State, t: State)
    requires Tree(s) && t.kids == s.kids && t.procs.Keys == s.procs.Keys && t.current in t.procs
    requires forall p :: p in s.procs ==> t.procs[p].parent == s.procs[p].parent
    ensures Tree(t)
  {
    forall q | q in t.kids ensures KidsOk(t, q) {
      assert KidsOk(s, q);
      forall c | c in t.kids[q] ensures KidOk(t, q, c) { assert KidOk(s, q, c); }
    }
    forall c | c in t.procs && c != IDLE ensures ParentOk(t, c) { assert ParentOk(s, c); }
  }

  lemma StaysRooted(s: State, t: State)
    requires Rooted(s) && t.procs.Keys <= s.procs.Keys
    requires forall c :: c in t.procs && c != IDLE ==> t.procs[c].parent == s.procs[c].parent || (t.procs[c].parent == INIT && c != INIT)
    ensures Rooted(t)
  {
    var rank :| Ranked(s, rank);
    assert Ranked(t, rank);
  }

  lemma ParentNotSelf(s: State, c: int)
    requires Rooted(s) && c in s.procs && c != IDLE
    ensures s.procs[c].parent != c
  {
    var rank :| Ranked(s, rank);
  }

  /** A wait depends on the sleeper's children and on which of them are zombies. */
  lemma SameWait(s: State, t: State, q: int)
    requires q in s.procs && q in t.procs && t.procs[q].life == s.procs[q].life && t.procs[q].wait == s.procs[q].wait
    requires WaitOk(s, q) && (q in s.kids ==> q in t.kids && t.kids[q] == s.kids[q])
    requires q in s.kids ==> forall c :: c in s.kids[q] && c in s.procs ==> c in t.procs && (t.procs[c].life == Zombie ==> s.procs[c].life == Zombie)
    ensures WaitOk(t, q)
  {
  }

  /** Waking a process keeps the tree, and the queue's promise. */
  lemma WakeupKeeps(s: State, p: int)
    requires Tree(s) && Queue(s) && p in s.procs && p != IDLE && s.procs[p].life != Zombie
    ensures Tree(Wakeup(s, p)) && Queue(Wakeup(s, p))
    ensures Wakeup(s, p).kids == s.kids && Wakeup(s, p).current == s.current
  {
    SameTree(s, Wakeup(s, p));
    hide Tree;
    WakeupQueues(s, p);
  }

  lemma WakeupQueues(s: State, p: int)
    requires Queue(s) && p in s.procs && p != IDLE && s.procs[p].life != Zombie
    ensures Queue(Wakeup(s, p))
  {
    var t := Wakeup(s, p);
    if s.procs[p].life != Runnable {
      assert QueueOk(s, p);
      forall q ensures QueueOk(t, q) { assert QueueOk(s, q); }
    }
  }

  lemma WakeupEndsWait(s: State, p: int)
    requires p in s.procs && p != IDLE && s.procs[p].life == Sleeping
    requires forall q :: q in s.procs && q != p ==> WaitOk(s, q)
    ensures Waits(Wakeup(s, p))
  {
    var t := Wakeup(s, p);
    forall q | q in t.procs ensures WaitOk(t, q) {
      if q != p {
        assert WaitOk(s, q);
        SameWait(s, t, q);
      }
    }
  }

  lemma ScheduleKeeps(s: State)
    requires Inv(s)
    ensures Inv(Schedule(s))
    ensures Schedule(s).procs == s.procs && Schedule(s).kids == s.kids
  {
    var t := Schedule(s);
    var u := if s.procs[s.current].life == Runnable then Enqueue(s, s.current) else s;
    RequeueKeeps(s);
    hide Queue, Distinct, Enqueue;
    assert t.queue == (if u.queue == [] then [] else u.queue[1..]);
    DispatchKeeps(s, u.queue, t);
    SameTree(s, t);
    StaysRooted(s, t);
    forall q | q in t.procs ensures WaitOk(t, q) { SameWait(s, t, q); }
  }

  lemma RequeueKeeps(s: State)
    requires Queue(s) && s.current in s.procs
    ensures var u := if s.procs[s.current].life == Runnable then Enqueue(s, s.current) else s;
      Distinct(u.queue) && forall p :: p in u.queue <==> p in s.procs && s.procs[p].life == Runnable && p != IDLE
  {
    var u := if s.procs[s.current].life == Runnable then Enqueue(s, s.current) else s;
    assert QueueOk(s, s.current);
    forall p ensures p in u.queue <==> p in s.procs && s.procs[p].life == Runnable && p != IDLE { assert QueueOk(s, p); }
  }

  lemma DispatchKeeps(s: State, q: seq<int>, t: State)
    requires Distinct(q) && forall p :: p in q <==> p in s.procs && s.procs[p].life == Runnable && p != IDLE
    requires t.procs == s.procs && IDLE in s.procs
    requires if q == [] then t.queue == [] && t.current == IDLE else t.queue == q[1..] && t.current == q[0]
    ensures t.current in t.procs && Queue(t)
  {
    if q != [] {
      assert q[0] in q;
      forall p ensures QueueOk(t, p) { assert p in q <==> p == q[0] || p in q[1..]; }
    }
  }

  lemma ForkKeeps(s: State, child: int)
    requires Inv(s) && Enabled(s, DoFork(child))
    ensures Inv(Fork(s, child))
  {
    var me := s.current;
    var v := Link(s.(procs := s.procs[child := Proc(Sleeping, Awake, false, 0, me)]), child, me);
    assert !s.procs[me].wait.OnChild? by { assert WaitOk(s, me); }
    LinkKeeps(s, v, child);
    ForkWaits(s, v, child);
    ForkRooted(s, v, child);
    hide Tree, Rooted, Waits;
    ForkQueues(s, v, child);
    WakeupKeeps(v, child);
    WakeupEndsWait(v, child);
    StaysRooted(v, Fork(s, child));
  }

  lemma ForkQueues(s: State, v: State, child: int)
    requires Queue(s) && child !in s.procs && v.current == s.current && v.queue == s.queue
    requires v.procs == s.procs[child := Proc(Sleeping, Awake, false, 0, s.current)]
    ensures Queue(v)
  {
    forall p ensures QueueOk(v, p) { assert QueueOk(s, p); }
  }

  lemma ForkWaits(s: State, v: State, child: int)
    requires Tree(s) && Waits(s) && child !in s.procs && !s.procs[s.current].wait.OnChild?
    requires v.procs == s.procs[child := Proc(Sleeping, Awake, false, 0, s.current)]
    requires v.kids == s.kids[child := []][s.current := [child] + s.kids[s.current]]
    ensures forall q :: q in v.procs && q != child ==> WaitOk(v, q)
  {
    forall q | q in v.procs && q != child ensures WaitOk(v, q) {
      assert WaitOk(s, q);
      if q != s.current {
        ChildElsewhere(s, q, child);
        SameWait(s, v, q);
      }
    }
  }

  lemma ForkRooted(s: State, v: State, child: int)
    requires Tree(s) && Rooted(s) && child !in s.procs && child > INIT && s.current != IDLE
    requires v.procs == s.procs[child := Proc(Sleeping, Awake, false, 0, s.current)]
    ensures Rooted(v)
  {
    var rank :| Ranked(s, rank);
    assert Ranked(v, rank[child := rank[s.current] + 1]);
  }

  lemma ChildElsewhere(s: State, q: int, c: int)
    requires Tree(s) && q in s.kids && (c !in s.procs || s.procs[c].parent != q)
    ensures c !in s.kids[q]
    ensures forall k :: k in s.kids[q] ==> k in s.procs
  {
    assert KidsOk(s, q);
    forall k | k in s.kids[q] ensures k in s.procs && k != c { assert KidOk(s, q, k); }
  }

  lemma LinkKeeps(s: State, v: State, child: int)
    requires Tree(s) && child !in s.procs && child > INIT && v.current == s.current
    requires v.procs == s.procs[child := Proc(Sleeping, Awake, false, 0, s.current)]
    requires v.kids == s.kids[child := []][s.current := [child] + s.kids[s.current]]
    ensures Tree(v)
  {
    forall q | q in v.kids ensures KidsOk(v, q) {
      if q != child {
        assert KidsOk(s, q);
        ChildElsewhere(s, q, child);
        forall c | c in v.kids[q] ensures KidOk(v, q, c) { if c != child { assert KidOk(s, q, c); } }
      }
    }
    forall c | c in v.procs && c != IDLE ensures ParentOk(v, c) {
      if c == child { assert v.kids[s.current][0] == child; } else { assert ParentOk(s, c); }
    }
  }

  // ---- Exit ----

  /** What holds while an exiting process still has children to hand over. */
  ghost predicate Dying(s: State) {
    Tree(s) && Rooted(s) && Queue(s) && Waits(s) && OneDies(s)
  }

  ghost predicate OneDies(s: State) {
    && s.current != IDLE && s.current != INIT && s.current in s.procs && s.procs[s.current].life == Zombie
    && (forall p :: p in s.procs && s.procs[p].life == Zombie && p != s.current ==> p in s.kids && s.kids[p] == [])
    && IDLE in s.procs && s.procs[IDLE].life == Runnable && INIT in s.procs && s.procs[INIT].life != Zombie
  }

  lemma DieKeeps(s: State, code: int)
    requires Inv(s) && Enabled(s, DoExit(code))
    ensures s.procs[s.current].parent in s.procs && Dying(Die(s, code))
  {
    ParentLives(s, s.current);
    ParentNotSelf(s, s.current);
    hide Tree, Rooted, Queue, Waits, OneDies;
    assert OneDies(Die(s, code)) by { OneIsDying(s, code); }
    DieRest(s, code);
  }

  lemma OneIsDying(s: State, code: int)
    requires Dead(s) && Enabled(s, DoExit(code)) && s.procs[s.current].parent in s.procs
    requires s.procs[s.current].parent != s.current && s.procs[s.procs[s.current].parent].life != Zombie
    ensures OneDies(Die(s, code))
  {
  }

  lemma DieRest(s: State, code: int)
    requires Tree(s) && Rooted(s) && Queue(s) && Waits(s) && Dead(s) && Enabled(s, DoExit(code))
    requires s.procs[s.current].parent in s.procs && s.procs[s.current].parent != s.current
    ensures var t := Die(s, code);
      Tree(t) && Rooted(t) && Queue(t) && Waits(t)
  {
    var me, p := s.current, s.procs[s.current].parent;
    var t := s.(procs := s.procs[me := s.procs[me].(life := Zombie, code := code)]);
    SameTree(s, t);
    StaysRooted(s, Die(s, code));
    assert !s.procs[me].wait.OnChild? && (t.procs[p].wait.OnChild? ==> t.procs[p].life == Sleeping) by {
      assert WaitOk(s, me) && WaitOk(s, p);
    }
    DieWaits(s, t);
    hide Tree, Rooted, Waits;
    DieQueues(s, t);
    if t.procs[p].wait.OnChild? {
      assert p != IDLE;
      WakeupKeeps(t, p);
      WakeupEndsWait(t, p);
    } else {
      AllWait(t, p);
    }
  }

  lemma DieQueues(s: State, t: State)
    requires Queue(s) && s.current in s.procs && t.current == s.current && t.queue == s.queue && s.current in t.procs
    requires t.procs[s.current].life == Zombie
    requires t.procs == s.procs[s.current := t.procs[s.current]]
    ensures Queue(t)
  {
    assert QueueOk(s, s.current);
    forall q ensures QueueOk(t, q) { assert QueueOk(s, q); }
  }

  lemma DieWaits(s: State, t: State)
    requires Tree(s) && Waits(s) && !s.procs[s.current].wait.OnChild? && t.kids == s.kids && s.procs[s.current].life == Runnable
    requires s.current in t.procs && t.procs == s.procs[s.current := t.procs[s.current]]
    requires t.procs[s.current].wait == s.procs[s.current].wait && t.procs[s.current].life == Zombie
    ensures forall q :: q in t.procs && (q != s.procs[s.current].parent || !t.procs[q].wait.OnChild?) ==> WaitOk(t, q)
  {
    forall q | q in t.procs && (q != s.procs[s.current].parent || !t.procs[q].wait.OnChild?) ensures WaitOk(t, q) {
      assert WaitOk(s, q);
      if q != s.procs[s.current].parent && q != s.current {
        ChildElsewhere(s, q, s.current);
        SameWait(s, t, q);
      }
    }
  }

  lemma AllWait(t: State, p: int)
    requires p in t.procs && forall q :: q in t.procs && (q != p || !t.procs[q].wait.OnChild?) ==> WaitOk(t, q)
    requires !t.procs[p].wait.OnChild?
    ensures Waits(t)
  {
  }

  /** One child moved: before init may be woken. */
  function Moved(s: State): State
    requires s.current in s.kids && s.kids[s.current] != [] && INIT in s.kids && s.kids[s.current][0] in s.procs
  {
    var c := s.kids[s.current][0];
    s.(kids := s.kids[s.current := s.kids[s.current][1..]][INIT := [c] + s.kids[INIT]],
       procs := s.procs[c := s.procs[c].(parent := INIT)])
  }

  lemma MovedTree(s: State)
    requires Tree(s) && s.current != INIT && s.current != IDLE && s.kids[s.current] != []
    requires s.procs[INIT].parent != s.current && s.kids[s.current][0] in s.procs
    ensures Tree(Moved(s))
  {
    var me := s.current;
    var c, t := s.kids[me][0], Moved(s);
    assert KidsOk(s, me) && KidOk(s, me, c);
    assert KidsOk(s, INIT);
    ChildElsewhere(s, INIT, c);
    forall q | q in t.kids ensures KidsOk(t, q) {
      assert KidsOk(s, q);
      if q != me && q != INIT { ChildElsewhere(s, q, c); }
      forall k | k in t.kids[q] ensures KidOk(t, q, k) { if !(q == INIT && k == c) { assert KidOk(s, q, k); } }
    }
    forall k | k in t.procs && k != IDLE ensures ParentOk(t, k) {
      assert ParentOk(s, k);
      if k == c { assert t.kids[INIT][0] == c; } else if s.procs[k].parent == me { assert k in s.kids[me] && k != c; }
    }
  }

  lemma MovedWaits(s: State)
    requires Tree(s) && Waits(s) && s.current != INIT && s.kids[s.current] != [] && s.kids[s.current][0] in s.procs
    requires !s.procs[s.current].wait.OnChild?
    ensures var t := Moved(s);
      forall q :: q in t.procs && (q != INIT || !t.procs[INIT].wait.OnChild? || t.procs[s.kids[s.current][0]].life != Zombie)
        ==> WaitOk(t, q)
  {
    var me := s.current;
    var c, t := s.kids[me][0], Moved(s);
    forall q | q in t.procs && (q != INIT || !t.procs[INIT].wait.OnChild? || t.procs[c].life != Zombie) ensures WaitOk(t, q) {
      assert WaitOk(s, q);
      if q != me && q != INIT { SameWait(s, t, q); }
    }
  }

  lemma InitIsIdles(s: State)
    requires Tree(s) && Rooted(s)
    ensures s.procs[INIT].parent == IDLE
  {
    var rank :| Ranked(s, rank);
    assert ParentOk(s, INIT);
  }

  lemma OrphansKnown(s: State)
    requires Tree(s) && s.current != INIT
    ensures Orphans(s)
  {
    assert KidsOk(s, s.current);
    forall i | 0 <= i < |s.kids[s.current]| ensures s.kids[s.current][i] in s.procs {
      assert KidOk(s, s.current, s.kids[s.current][i]);
    }
  }

  lemma AdoptOneKeeps(s: State)
    requires Dying(s) && s.kids[s.current] != []
    ensures Orphans(s) && Dying(AdoptOne(s))
  {
    OrphansKnown(s);
    hide Tree, Rooted, Queue, Waits, OneDies;
    AdoptOneDies(s);
    AdoptOneRest(s);
  }

  lemma AdoptOneDies(s: State)
    requires OneDies(s) && Orphans(s) && s.kids[s.current] != []
    ensures OneDies(AdoptOne(s))
  {
  }

  lemma WaiterSleeps(s: State, p: int)
    requires Waits(s) && p in s.procs && s.procs[p].wait.OnChild?
    ensures s.procs[p].life == Sleeping
  {
    assert WaitOk(s, p);
  }

  lemma RunnerIsAwake(s: State)
    requires Waits(s) && s.current in s.procs && s.procs[s.current].life != Sleeping
    ensures !s.procs[s.current].wait.OnChild?
  {
    assert WaitOk(s, s.current);
  }

  lemma MovedKeeps(s: State)
    requires Tree(s) && Rooted(s) && Queue(s) && Waits(s) && OneDies(s) && Orphans(s) && s.kids[s.current] != []
    ensures Tree(Moved(s)) && Rooted(Moved(s)) && Queue(Moved(s)) && Moved(s).procs[INIT].life != Zombie
    ensures Moved(s).procs[INIT].wait.OnChild? ==> Moved(s).procs[INIT].life == Sleeping
    ensures var t := Moved(s);
      forall q :: q in t.procs && (q != INIT || !t.procs[INIT].wait.OnChild? || t.procs[s.kids[s.current][0]].life != Zombie)
        ==> WaitOk(t, q)
  {
    InitIsIdles(s);
    RunnerIsAwake(s);
    if s.procs[INIT].wait.OnChild? { WaiterSleeps(s, INIT); }
    MovedTree(s);
    MovedWaits(s);
    MovedQueues(s);
    hide Tree, Rooted, Queue, Waits, WaitOk;
    assert Rooted(Moved(s)) by { StaysRooted(s, Moved(s)); }
  }

  lemma AdoptOneRest(s: State)
    requires Tree(s) && Rooted(s) && Queue(s) && Waits(s) && OneDies(s) && Orphans(s) && s.kids[s.current] != []
    ensures var t := AdoptOne(s);
      Tree(t) && Rooted(t) && Queue(t) && Waits(t)
  {
    hide Tree, Rooted, Queue, Waits, WaitOk;
    var c, t := s.kids[s.current][0], Moved(s);
    MovedKeeps(s);
    if t.procs[c].life == Zombie && t.procs[INIT].wait.OnChild? {
      WakeupKeeps(t, INIT);
      WakeupEndsWait(t, INIT);
      StaysRooted(t, Wakeup(t, INIT));
    } else {
      AllWaiting(t);
    }
  }

  lemma MovedQueues(s: State)
    requires Queue(s) && s.current in s.kids && s.kids[s.current] != [] && INIT in s.kids && s.kids[s.current][0] in s.procs
    ensures Queue(Moved(s))
  {
    forall q ensures QueueOk(Moved(s), q) { assert QueueOk(s, q); }
  }

  lemma AllWaiting(t: State)
    requires forall q :: q in t.procs ==> WaitOk(t, q)
    ensures Waits(t)
  {
  }

  function Reversed(l: seq<int>): seq<int> {
    if l == [] then [] else Reversed(l[1..]) + [l[0]]
  }

  /** Handing over conserves the children: init gains them all, in reverse, and the dead process keeps none. */
  lemma {:induction false} AdoptAllKeeps(s: State)
    requires Dying(s)
    ensures Orphans(s) && Dying(AdoptAll(s)) && AdoptAll(s).kids[s.current] == []
    decreases |s.kids[s.current]|
  {
    OrphansKnown(s);
    if s.kids[s.current] != [] {
      hide Dying, AdoptOne;
      AdoptOneKeeps(s);
      AdoptOneShape(s);
      AdoptAllKeeps(AdoptOne(s));
    }
  }

  lemma {:induction false} AdoptAllKids(s: State)
    requires Dying(s)
    ensures Orphans(s)
    ensures AdoptAll(s).kids == HandOver(s.kids, s.current)
    decreases |s.kids[s.current]|
  {
    OrphansKnown(s);
    var me := s.current;
    if s.kids[me] == [] {
      assert Reversed(s.kids[me]) + s.kids[INIT] == s.kids[INIT];
    } else {
      hide Dying, AdoptOne, HandOver;
      AdoptOneKeeps(s);
      AdoptOneShape(s);
      AdoptAllKids(AdoptOne(s));
      HandOverOne(s.kids, me);
    }
  }

  /** All the children of a process, youngest first, put before init's in reverse. */
  function HandOver(kids: map<int, seq<int>>, p: int): map<int, seq<int>>
    requires p in kids && INIT in kids
  {
    kids[p := []][INIT := Reversed(kids[p]) + kids[INIT]]
  }

  lemma HandOverOne(kids: map<int, seq<int>>, p: int)
    requires p in kids && INIT in kids && p != INIT && kids[p] != []
    ensures HandOver(kids[p := kids[p][1..]][INIT := [kids[p][0]] + kids[INIT]], p) == HandOver(kids, p)
  {
    assert Reversed(kids[p][1..]) + ([kids[p][0]] + kids[INIT]) == Reversed(kids[p]) + kids[INIT];
  }

  lemma AdoptOneShape(s: State)
    requires Orphans(s) && s.kids[s.current] != []
    ensures var c, t := s.kids[s.current][0], AdoptOne(s);
      && t.current == s.current && t.procs.Keys == s.procs.Keys
      && t.kids == s.kids[s.current := s.kids[s.current][1..]][INIT := [c] + s.kids[INIT]]
      && (forall p :: p in s.procs ==> t.procs[p].parent == if p == c then INIT else s.procs[p].parent)
  {
  }

  /** The handed-over children have init as their parent; nobody else changes parent. */
  lemma {:induction false} AdoptAllParents(s: State, c: int)
    requires Dying(s) && c in s.procs && c != IDLE
    ensures Orphans(s)
    ensures AdoptAll(s).procs[c].parent == if s.procs[c].parent == s.current then INIT else s.procs[c].parent
    decreases |s.kids[s.current]|
  {
    OrphansKnown(s);
    var me := s.current;
    if s.kids[me] == [] {
      NoKidsNoParent(s, me);
    } else {
      assert KidOk(s, me, s.kids[me][0]) by { assert KidsOk(s, me); }
      hide Dying, AdoptOne;
      AdoptOneKeeps(s);
      AdoptOneShape(s);
      AdoptAllParents(AdoptOne(s), c);
    }
  }

  lemma NoKidsNoParent(s: State, p: int)
    requires Tree(s) && p in s.kids && s.kids[p] == [] && p != IDLE
    ensures forall c :: c in s.procs && c != IDLE ==> s.procs[c].parent != p
  {
    forall c | c in s.procs && c != IDLE ensures s.procs[c].parent != p { assert ParentOk(s, c); }
  }

  lemma ExitKeeps(s: State, code: int)
    requires Inv(s) && Enabled(s, DoExit(code))
    ensures s.procs[s.current].parent in s.procs && Orphans(s) && Orphans(Die(s, code)) && Inv(Exit(s, code))
  {
    DieKeeps(s, code);
    OrphansKnown(s);
    hide Tree, Queue, Waits, Rooted;
    var t := Die(s, code);
    assert t.current == s.current && t.current in t.kids && t.current != INIT && INIT in t.kids;
    AdoptAllKeeps(t);
    ScheduleKeeps(AdoptAll(t));
  }

  // ---- Wait, kill, sleep ----

  lemma ReapKeeps(s: State, asked: int)
    requires Inv(s) && Enabled(s, DoWait(asked)) && Known(s, s.kids[s.current])
    requires Collectable(s, s.kids[s.current], asked) < |s.kids[s.current]|
    ensures Inv(Reap(s, Collectable(s, s.kids[s.current], asked)))
  {
    var me := s.current;
    var i := Collectable(s, s.kids[me], asked);
    var c, t := s.kids[me][i], Reap(s, i);
    assert KidsOk(s, me) && KidOk(s, me, c);
    ParentNotSelf(s, c);
    assert c != INIT && s.kids[c] == [];
    ReapTree(s, i);
    StaysRooted(s, t);
    ReapWaits(s, i);
    hide Tree, Rooted, Waits;
    ReapQueues(s, i);
  }

  lemma ReapQueues(s: State, i: nat)
    requires Queue(s) && s.current in s.kids && i < |s.kids[s.current]|
    requires var c := s.kids[s.current][i]; c in s.procs && s.procs[c].life == Zombie
    ensures Queue(Reap(s, i))
  {
    forall p ensures QueueOk(Reap(s, i), p) { assert QueueOk(s, p); }
  }

  lemma ReapWaits(s: State, i: nat)
    requires Tree(s) && Waits(s) && i < |s.kids[s.current]|
    requires s.procs[s.current].wait.Awake? && s.kids[s.current][i] != s.current
    ensures Waits(Reap(s, i))
  {
    var me := s.current;
    var c, t := s.kids[me][i], Reap(s, i);
    assert KidsOk(s, me) && KidOk(s, me, c);
    forall q | q in t.procs ensures WaitOk(t, q) {
      assert WaitOk(s, q);
      if q != me { ChildElsewhere(s, q, c); SameWait(s, t, q); }
    }
  }

  lemma ReapTree(s: State, i: nat)
    requires Tree(s) && i < |s.kids[s.current]|
    requires var c := s.kids[s.current][i]; c != INIT && c != IDLE && c != s.current && c in s.kids && s.kids[c] == []
    ensures Tree(Reap(s, i))
  {
    var me := s.current;
    var c, t := s.kids[me][i], Reap(s, i);
    assert KidsOk(s, me) && KidOk(s, me, c);
    RemoveDistinct(s.kids[me], i);
    forall q | q in t.kids ensures KidsOk(t, q) {
      assert KidsOk(s, q);
      if q != me { ChildElsewhere(s, q, c); }
      forall k | k in t.kids[q] ensures KidOk(t, q, k) { assert KidOk(s, q, k); }
    }
    NoKidsNoParent(s, c);
    forall k | k in t.procs && k != IDLE ensures ParentOk(t, k) { assert ParentOk(s, k); }
  }

  lemma RemoveDistinct(l: seq<int>, i: nat)
    requires Distinct(l) && i < |l|
    ensures Distinct(Remove(l, i)) && forall x :: x in Remove(l, i) <==> x in l && x != l[i]
  {
    forall x | x in l && x != l[i] ensures x in Remove(l, i) {
      var j :| 0 <= j < |l| && l[j] == x;
      assert Remove(l, i)[if j < i then j else j - 1] == x;
    }
  }

  lemma SleepKeeps(s: State, t: State)
    requires Inv(s) && s.current != IDLE && s.current in t.procs
    requires t == s.(procs := s.procs[s.current := t.procs[s.current]]) && t.procs[s.current].life == Sleeping && t.procs[s.current].parent == s.procs[s.current].parent
    requires s.procs[s.current].life == Runnable && WaitOk(t, s.current)
    ensures Inv(t)
  {
    SameTree(s, t);
    StaysRooted(s, t);
    assert QueueOk(s, s.current);
    forall p ensures QueueOk(t, p) { assert QueueOk(s, p); }
    forall q | q in t.procs ensures WaitOk(t, q) {
      assert WaitOk(s, q);
      if q != s.current { SameWait(s, t, q); }
    }
  }

  lemma WaitForKeeps(s: State, asked: int)
    requires Inv(s) && Enabled(s, DoWait(asked))
    ensures Known(s, s.kids[s.current]) && Inv(WaitFor(s, asked))
  {
    ParentLives(s, s.current);
    var kids := s.kids[s.current];
    var i := Collectable(s, kids, asked);
    if i < |kids| {
      ReapKeeps(s, asked);
    } else if exists c :: c in kids && Asks(asked, c) {
      var t := s.(procs := s.procs[s.current := s.procs[s.current].(life := Sleeping, wait := OnChild(asked))]);
      SleepKeeps(s, t);
      ScheduleKeeps(t);
    }
  }

  lemma WakeupKeepsAll(s: State, p: int)
    requires Inv(s) && p in s.procs && s.procs[p].life == Sleeping
    ensures Inv(Wakeup(s, p))
  {
    hide Tree, Queue, Waits, Rooted;
    assert p != IDLE;
    WakeupTo(s, p, Wakeup(s, p));
    DeadAfterWakeup(s, p);
  }

  lemma DeadAfterWakeup(s: State, p: int)
    requires Dead(s) && p in s.procs && s.procs[p].life == Sleeping
    ensures Dead(Wakeup(s, p))
  {
  }

  lemma WakeupTo(s: State, p: int, t: State)
    requires Tree(s) && Rooted(s) && Queue(s) && Waits(s) && p in s.procs && p != IDLE && s.procs[p].life == Sleeping
    requires t == Wakeup(s, p)
    ensures Tree(t) && Rooted(t) && Queue(t) && Waits(t)
  {
    hide QueueOk, KidsOk, WaitOk, Ranked;
    WakeupKeeps(s, p);
    WakeupEndsWait(s, p);
    StaysRooted(s, t);
  }

  lemma ToldWaits(s: State, p: int)
    requires Waits(s) && p in s.procs
    ensures Waits(s.(procs := s.procs[p := s.procs[p].(exiting := true)]))
  {
    var t := s.(procs := s.procs[p := s.procs[p].(exiting := true)]);
    forall q | q in t.procs ensures WaitOk(t, q) { assert WaitOk(s, q); SameWait(s, t, q); }
  }

  lemma ToldQueue(s: State, p: int)
    requires Queue(s) && p in s.procs
    ensures Queue(s.(procs := s.procs[p := s.procs[p].(exiting := true)]))
  {
    var t := s.(procs := s.procs[p := s.procs[p].(exiting := true)]);
    forall q ensures QueueOk(t, q) { assert QueueOk(s, q); }
  }

  lemma ToldKeeps(s: State, p: int)
    requires Inv(s) && p in s.procs
    ensures Inv(s.(procs := s.procs[p := s.procs[p].(exiting := true)]))
  {
    var t := s.(procs := s.procs[p := s.procs[p].(exiting := true)]);
    SameTree(s, t);
    StaysRooted(s, t);
    ToldWaits(s, p);
    ToldQueue(s, p);
    hide Tree, Rooted, Waits, Queue;
  }

  lemma KillKeeps(s: State, p: int)
    requires Inv(s) && Enabled(s, DoKill(p))
    ensures Inv(Kill(s, p))
  {
    if p in s.procs && !s.procs[p].exiting {
      var t := s.(procs := s.procs[p := s.procs[p].(exiting := true)]);
      ToldKeeps(s, p);
      hide Inv;
      if Interruptible(s.procs[p].wait) { WakeupKeepsAll(t, p); }
    }
  }

  /** Every operation of the kernel keeps the invariant. */
  lemma StepKeeps(s: State, op: Op)
    requires Inv(s) && Enabled(s, op)
    ensures Inv(Step(s, op))
  {
    hide Inv;
    match op
    case DoFork(child) => ForkKeeps(s, child);
    case DoExit(code) => ExitKeeps(s, code);
    case DoWait(asked) => WaitForKeeps(s, asked);
    case DoKill(pid) => KillKeeps(s, pid);
    case DoDoze(on) => SleepKeeps(s, Doze(s, on));
    case Interrupt(p) => WakeupKeepsAll(s, p);
    case Reschedule => ScheduleKeeps(s);
  }

  // ---- Runs ----

  /** After boot: idle runs, init waits its turn. */
  function Boot(): State {
    State(map[IDLE := Proc(Runnable, Awake, false, 0, IDLE), INIT := Proc(Runnable, Awake, false, 0, IDLE)],
          map[IDLE := [INIT], INIT := []], [INIT], IDLE)
  }

  /** At boot idle and init can run, init as the child of idle; nobody is marked as exiting. */
  lemma BootOk()
    ensures Inv(Boot()) && Boot().procs.Keys == {0, 1} && Boot().current == 0 && Boot().queue == [1]
    ensures forall p :: p in Boot().procs ==> Boot().procs[p] == Proc(Runnable, Awake, false, 0, 0)
  {
    assert Ranked(Boot(), map[IDLE := 0, INIT := 1]);
    BootTree();
    BootQueue();
    hide Tree, Queue, Rooted;
  }

  lemma BootTree()
    ensures Tree(Boot())
  {
    var s := Boot();
    assert s.kids.Keys == s.procs.Keys == {IDLE, INIT};
    assert ParentOk(s, INIT) by { assert s.kids[IDLE][0] == INIT; }
    assert KidsOk(s, IDLE) && KidsOk(s, INIT);
  }

  lemma BootQueue()
    ensures Queue(Boot())
  {
    var s := Boot();
    forall p ensures QueueOk(s, p) { assert s.queue[0] == INIT; }
  }

  ghost predicate Possible(s: State, ops: seq<Op>)
    requires Inv(s)
  {
    ops == [] ||
    (Possible(s, ops[..|ops| - 1]) && Enabled(Run(s, ops[..|ops| - 1]), ops[|ops| - 1]))
  }

  ghost function Run(s: State, ops: seq<Op>): (t: State)
    requires Inv(s)
    ensures Inv(t)
  {
    if ops == [] then s
    else
      var t := Run(s, ops[..|ops| - 1]);
      var op := ops[|ops| - 1];
      if Enabled(t, op) then StepKeeps(t, op); Step(t, op) else t
  }

  /** In every reachable state, no process sleeps for a child while a child it asked for is a zombie. */
  lemma NoZombieOverlooked(ops: seq<Op>, p: int, c: int)
    requires Inv(Boot()) && Possible(Boot(), ops)
    requires var s := Run(Boot(), ops);
      p in s.procs && s.procs[p].wait.OnChild? && c in s.procs && s.procs[c].parent == p && Asks(s.procs[p].wait.asked, c)
    ensures var s := Run(Boot(), ops);
      c != IDLE ==> s.procs[c].life != Zombie && s.procs[p].life == Sleeping
  {
    var s := Run(Boot(), ops);
    assert WaitOk(s, p);
    if c != IDLE { assert ParentOk(s, c); }
  }

  // ---- Round robin ----

  /** The operations that end in a dispatch. */
  ghost predicate Dispatches(s: State, op: Op) {
    op.Reschedule? || op.DoExit? ||
    (op.DoWait? && s.current in s.kids && Known(s, s.kids[s.current])
      && Collectable(s, s.kids[s.current], op.asked) == |s.kids[s.current]|
      && exists c :: c in s.kids[s.current] && Asks(op.asked, c))
  }

  lemma {:induction false} AdoptAllQueues(s: State)
    requires Orphans(s)
    ensures s.queue <= AdoptAll(s).queue
    decreases |s.kids[s.current]|
  {
    if s.kids[s.current] != [] {
      assert s.queue <= AdoptOne(s).queue;
      AdoptAllQueues(AdoptOne(s));
    }
  }

  lemma SchedulePops(s: State, q: seq<int>)
    requires s.current in s.procs && q <= s.queue && q != []
    ensures Schedule(s).current == q[0] && q[1..] <= Schedule(s).queue
  {
  }

  lemma StepQueue(s: State, op: Op)
    requires Inv(s) && Enabled(s, op)
    ensures !Dispatches(s, op) ==> s.queue <= Step(s, op).queue
    ensures Dispatches(s, op) && s.queue != [] ==>
      Step(s, op).current == s.queue[0] && s.queue[1..] <= Step(s, op).queue
  {
    hide Inv;
    match op
    case DoExit(code) =>
      ExitKeeps(s, code);
      ExitQueue(s, code);
    case Reschedule =>
      assert s.current in s.procs by { CurrentKnown(s); }
      if s.queue != [] { SchedulePops(s, s.queue); }
    case DoWait(asked) =>
      WaitForKeeps(s, asked);
      CurrentKnown(s);
      WaitQueue(s, asked);
    case _ =>
  }

  lemma CurrentKnown(s: State)
    requires Inv(s)
    ensures s.current in s.procs && s.current in s.kids
  {
  }

  lemma ExitQueue(s: State, code: int)
    requires s.current in s.procs && s.procs[s.current].parent in s.procs && Orphans(s) && Orphans(Die(s, code))
    ensures s.queue != [] ==> Exit(s, code).current == s.queue[0] && s.queue[1..] <= Exit(s, code).queue
  {
    hide AdoptAll, Orphans;
    AdoptAllQueues(Die(s, code));
    if s.queue != [] { SchedulePops(AdoptAll(Die(s, code)), s.queue); }
  }

  lemma WaitQueue(s: State, asked: int)
    requires s.current in s.kids && s.current in s.procs && Known(s, s.kids[s.current])
    ensures !Dispatches(s, DoWait(asked)) ==> WaitFor(s, asked).queue == s.queue
    ensures Dispatches(s, DoWait(asked)) && s.queue != [] ==>
      WaitFor(s, asked).current == s.queue[0] && s.queue[1..] == WaitFor(s, asked).queue
  {
    hide Known, Collectable;
  }

  ghost function Dispatched(s: State, ops: seq<Op>): nat
    requires Inv(s)
  {
    if ops == [] then 0
    else
      Dispatched(s, ops[..|ops| - 1]) + if Dispatches(Run(s, ops[..|ops| - 1]), ops[|ops| - 1]) then 1 else 0
  }

  lemma {:induction false} MovesUp(s: State, ops: seq<Op>, k: nat)
    requires Inv(s) && Possible(s, ops) && k < |s.queue| && Dispatched(s, ops) <= k
    ensures var t := Run(s, ops);
      k - Dispatched(s, ops) < |t.queue| && t.queue[k - Dispatched(s, ops)] == s.queue[k]
    decreases |ops|
  {
    hide Inv, Step, Enabled, Dispatches;
    if ops != [] {
      LastStep(s, ops);
      MovesUp(s, ops[..|ops| - 1], k);
      MovesUpOnce(s, ops, k);
    }
  }

  lemma MovesUpOnce(s: State, ops: seq<Op>, k: nat)
    requires Inv(s) && Possible(s, ops) && ops != [] && Dispatched(s, ops) <= k < |s.queue|
    requires var i, t := k - Dispatched(s, ops[..|ops| - 1]), Run(s, ops[..|ops| - 1]);
      0 <= i < |t.queue| && t.queue[i] == s.queue[k]
    ensures var i, t := k - Dispatched(s, ops), Run(s, ops);
      i < |t.queue| && t.queue[i] == s.queue[k]
  {
    hide Inv, Step, Enabled, Dispatches, Run, Possible, Dispatched;
    var front, op := ops[..|ops| - 1], ops[|ops| - 1];
    LastStep(s, ops);
    StepPlace(Run(s, front), op, k - Dispatched(s, front));
  }

  /** One operation moves a queued process up one place if it dispatches and leaves it there otherwise. */
  lemma StepPlace(s: State, op: Op, i: nat)
    requires Inv(s) && Enabled(s, op) && i < |s.queue| && (Dispatches(s, op) ==> i > 0)
    ensures var j := if Dispatches(s, op) then i - 1 else i;
      j < |Step(s, op).queue| && Step(s, op).queue[j] == s.queue[i]
  {
    StepQueue(s, op);
    hide Inv, Step, Enabled, Dispatches;
    PlaceKept(s.queue, Step(s, op).queue, i, Dispatches(s, op));
  }

  lemma PlaceKept(q: seq<int>, r: seq<int>, i: nat, popped: bool)
    requires i < |q| && (popped ==> i > 0 && q[1..] <= r) && (!popped ==> q <= r)
    ensures var j := if popped then i - 1 else i;
      j < |r| && r[j] == q[i]
  {
    if popped { assert q[1..][i - 1] == q[i]; }
  }

  lemma LastStep(s: State, ops: seq<Op>)
    requires Inv(s) && Possible(s, ops) && ops != []
    ensures var front, op := ops[..|ops| - 1], ops[|ops| - 1];
      && Possible(s, front) && Enabled(Run(s, front), op) && Run(s, ops) == Step(Run(s, front), op)
      && Dispatched(s, ops) == Dispatched(s, front) + if Dispatches(Run(s, front), op) then 1 else 0
  {
    hide Inv, Step, Enabled, Dispatches;
  }

  /** The process at position k runs at exactly the (k+1)-th dispatch, whatever happens in between. */
  lemma DispatchedInTurn(s: State, ops: seq<Op>, k: nat)
    requires Inv(s) && Possible(s, ops) && k < |s.queue| && ops != []
    requires Dispatched(s, ops) == k + 1 && Dispatched(s, ops[..|ops| - 1]) == k
    ensures Run(s, ops).current == s.queue[k]
  {
    MovesUp(s, ops[..|ops| - 1], k);
    StepQueue(Run(s, ops[..|ops| - 1]), ops[|ops| - 1]);
  }
}
