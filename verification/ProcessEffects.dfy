/** What each operation does, process by process, and what becomes of the code a process exits with. */
module ProcessEffects {
  import opened Process

  // ---- The effects, said outright ----

  /** The processor goes to the first of the queue, or to idle. */
  ghost predicate GoesTo(queue: seq<int>, t: State) {
    if queue == [] then t.current == 0 && t.queue == [] else t.current == queue[0] && t.queue == queue[1..]
  }

  /** A runnable child with no children of its own, the youngest of the running process and last in the queue. */
  ghost predicate HasForked(s: State, t: State, child: int) {
    && s.current in s.kids && t.current == s.current && t.queue == s.queue + [child]
    && t.procs == s.procs[child := Proc(Runnable, Awake, false, 0, s.current)]
    && t.kids == s.kids[child := []][s.current := [child] + s.kids[s.current]]
  }

  /** Some child of the running process is a zombie. */
  ghost predicate LeavesZombie(s: State) {
    s.current in s.kids && exists c :: c in s.kids[s.current] && c in s.procs && s.procs[c].life == Zombie
  }

  /** An exit tells the parent, and tells init if it is left a zombie. */
  ghost predicate Told(s: State, q: int) {
    && s.current in s.procs && q in s.procs && s.procs[q].wait.OnChild?
    && (q == s.procs[s.current].parent || (q == 1 && LeavesZombie(s)))
  }

  /** Those told are woken, the parent before init. */
  ghost function ToldInTurn(s: State): seq<int>
    requires s.current in s.procs
  {
    var p := s.procs[s.current].parent;
    (if Told(s, p) then [p] else []) + (if Told(s, 1) && p != 1 then [1] else [])
  }

  ghost predicate AfterExitOf(s: State, t: State, code: int, q: int)
    requires s.current in s.procs && s.current in s.kids && q in s.procs && q in t.procs
  {
    var old', new' := s.procs[q], t.procs[q];
    && new'.exiting == old'.exiting
    && new'.parent == (if q in s.kids[s.current] then 1 else old'.parent)
    && new'.code == (if q == s.current then code else old'.code)
    && new'.life == (if q == s.current then Zombie else if Told(s, q) then Runnable else old'.life)
    && new'.wait == (if q != s.current && Told(s, q) then Awake else old'.wait)
  }

  /** The process is a zombie that keeps its code, and init has its children, the oldest first. */
  ghost predicate HasExited(s: State, t: State, code: int) {
    && s.current in s.procs && t.procs.Keys == s.procs.Keys && s.current in s.kids && 1 in s.kids
    && (forall q :: q in s.procs ==> AfterExitOf(s, t, code, q))
    && t.kids.Keys == s.kids.Keys && t.kids[s.current] == []
    && (forall q :: q in s.kids && q != s.current && q != 1 ==> t.kids[q] == s.kids[q])
    && (var n := |s.kids[s.current]|;
        |t.kids[1]| == n + |s.kids[1]| && t.kids[1][n..] == s.kids[1]
        && forall i :: 0 <= i < n ==> t.kids[1][i] == s.kids[s.current][n - 1 - i])
    && GoesTo(s.queue + ToldInTurn(s), t)
  }

  ghost predicate Ripe(s: State, asked: int, c: int) {
    (asked == 0 || asked == c) && c in s.procs && s.procs[c].life == Zombie
  }

  /** The i-th child is the youngest zombie asked for; it is gone, and nothing else has changed. */
  ghost predicate CollectedAt(s: State, t: State, asked: int, i: nat) {
    && s.current in s.kids && i < |s.kids[s.current]| && Ripe(s, asked, s.kids[s.current][i])
    && (forall j :: 0 <= j < i ==> !Ripe(s, asked, s.kids[s.current][j]))
    && var c := s.kids[s.current][i];
       && t.procs == s.procs - {c} && t.queue == s.queue && t.current == s.current
       && t.kids == s.kids[s.current := s.kids[s.current][..i] + s.kids[s.current][i + 1..]] - {c}
  }

  /** There are children asked for and none is a zombie: the process sleeps for them. */
  ghost predicate WentToSleep(s: State, t: State, asked: int) {
    && s.current in s.kids && s.current in s.procs
    && (exists c :: c in s.kids[s.current] && (asked == 0 || asked == c))
    && (forall c :: c in s.kids[s.current] ==> !Ripe(s, asked, c))
    && t.procs == s.procs[s.current := s.procs[s.current].(life := Sleeping, wait := OnChild(asked))]
    && t.kids == s.kids && GoesTo(s.queue, t)
  }

  ghost predicate HasWaited(s: State, t: State, asked: int) {
    || (exists i: nat :: CollectedAt(s, t, asked, i))
    || WentToSleep(s, t, asked)
    || (t == s && s.current in s.kids && forall c :: c in s.kids[s.current] ==> asked != 0 && asked != c)
  }

  /** Woken: runnable, waiting for nothing, and last in the queue unless it still has the processor. */
  ghost predicate IsWoken(s: State, t: State, p: int) {
    && p in s.procs && t.procs == s.procs[p := s.procs[p].(life := Runnable, wait := Awake)]
    && t.queue == (if p == s.current then s.queue else s.queue + [p]) && t.kids == s.kids && t.current == s.current
  }

  /** The process is marked; asleep for a child, a timer or the keyboard, it is woken to see that. */
  ghost predicate WasKilled(s: State, t: State, p: int) {
    if p == 0 || p !in s.procs || s.procs[p].exiting then t == s
    else
      var told := s.(procs := s.procs[p := s.procs[p].(exiting := true)]);
      var w := s.procs[p].wait;
      if w.OnChild? || w.OnTimer? || w.OnKeyboard? then IsWoken(told, t, p) else t == told
  }

  ghost predicate HasDozed(s: State, t: State, on: Wait) {
    && s.current in s.procs && t.procs == s.procs[s.current := s.procs[s.current].(life := Sleeping, wait := on)]
    && t.queue == s.queue && t.kids == s.kids && t.current == s.current
  }

  /** The running process, if it still can run and is not idle, goes to the end of the queue first. */
  ghost predicate HasRescheduled(s: State, t: State) {
    && s.current in s.procs && t.procs == s.procs && t.kids == s.kids
    && GoesTo(if s.procs[s.current].life == Runnable && s.current != 0 then s.queue + [s.current] else s.queue, t)
  }

  ghost predicate Effect(s: State, op: Op, t: State) {
    match op
    case DoFork(child) => HasForked(s, t, child)
    case DoExit(code) => HasExited(s, t, code)
    case DoWait(asked) => HasWaited(s, t, asked)
    case DoKill(p) => WasKilled(s, t, p)
    case DoDoze(on) => HasDozed(s, t, on)
    case Interrupt(p) => IsWoken(s, t, p)
    case Reschedule => HasRescheduled(s, t)
  }

  // ---- Operation by operation ----

  /** Every operation of the kernel has its effect, and no other. */
  lemma StepHasEffect(s: State, op: Op)
    requires Inv(s) && Enabled(s, op)
    ensures Effect(s, op, Step(s, op))
  {
    match op
    case DoFork(child) => ForkHasEffect(s, child);
    case DoExit(code) => ExitHasEffect(s, code);
    case DoWait(asked) => WaitHasEffect(s, asked);
    case DoKill(p) => KillHasEffect(s, p);
    case Interrupt(p) => AsleepIsWoken(s, p);
    case DoDoze(_) =>
    case Reschedule =>
  }

  lemma ForkHasEffect(s: State, child: int)
    requires Inv(s) && Enabled(s, DoFork(child))
    ensures HasForked(s, Step(s, DoFork(child)), child)
  {
    var t := s.procs[child := Proc(Sleeping, Awake, false, 0, s.current)];
    assert t[child := t[child].(life := Runnable, wait := Awake)] == s.procs[child := Proc(Runnable, Awake, false, 0, s.current)];
  }

  lemma AsleepIsWoken(s: State, p: int)
    requires Inv(s) && Enabled(s, Interrupt(p))
    ensures IsWoken(s, Wakeup(s, p), p)
  {
  }

  lemma KillHasEffect(s: State, p: int)
    requires Inv(s) && Enabled(s, DoKill(p))
    ensures WasKilled(s, Kill(s, p), p)
  {
    if p in s.procs { assert WaitOk(s, p); }
  }

  lemma WaitHasEffect(s: State, asked: int)
    requires Inv(s) && Enabled(s, DoWait(asked))
    ensures HasWaited(s, Step(s, DoWait(asked)), asked)
  {
    ParentLives(s, s.current);
    var kids := s.kids[s.current];
    var i := Collectable(s, kids, asked);
    var t := Step(s, DoWait(asked));
    if i < |kids| {
      assert CollectedAt(s, t, asked, i);
    } else if exists c :: c in kids && Asks(asked, c) {
      assert WentToSleep(s, t, asked);
    }
  }

  // ---- Exit ----

  /** What handing all children over does to one process: a child gets init as parent, and init is told of a zombie. */
  ghost predicate AfterHandOver(s: State, t: State, q: int)
    requires s.current in s.kids && q in s.procs && q in t.procs
  {
    var parent := if q in s.kids[s.current] then INIT else s.procs[q].parent;
    if q == INIT && s.procs[INIT].wait.OnChild? && LeavesZombie(s)
    then t.procs[q] == s.procs[q].(parent := parent, life := Runnable, wait := Awake)
    else t.procs[q] == s.procs[q].(parent := parent)
  }

  ghost function InitIfTold(s: State): seq<int>
    requires INIT in s.procs
  {
    if s.procs[INIT].wait.OnChild? && LeavesZombie(s) then [INIT] else []
  }

  lemma OneHandedOver(s: State)
    requires Dying(s) && s.kids[s.current] != []
    ensures Orphans(s)
    ensures var c, t := s.kids[s.current][0], AdoptOne(s);
      && c in s.procs && c != INIT && c != IDLE && s.procs[c].parent == s.current && INIT in s.procs
      && var told := s.procs[INIT].wait.OnChild? && s.procs[c].life == Zombie;
         && t.procs == (if told
              then s.procs[c := s.procs[c].(parent := INIT)][INIT := s.procs[INIT].(life := Runnable, wait := Awake)]
              else s.procs[c := s.procs[c].(parent := INIT)])
         && t.queue == s.queue + if told then [INIT] else []
  {
    OrphansKnown(s);
    var c := s.kids[s.current][0];
    assert KidsOk(s, s.current) && KidOk(s, s.current, c);
    InitIsIdles(s);
    assert WaitOk(s, INIT);
    hide Tree, Rooted, Queue, Waits;
  }

  lemma LeavesZombieStep(s: State, t: State)
    requires s.current in s.kids && s.kids[s.current] != [] && t.current == s.current && s.current in t.kids
    requires t.kids[s.current] == s.kids[s.current][1..] && t.procs.Keys == s.procs.Keys && s.current != INIT
    requires forall q :: q in s.procs ==> (t.procs[q].life == Zombie <==> s.procs[q].life == Zombie)
    ensures var c := s.kids[s.current][0];
      LeavesZombie(s) <==> (c in s.procs && s.procs[c].life == Zombie) || LeavesZombie(t)
  {
    var l := s.kids[s.current];
    assert l == [l[0]] + l[1..];
    assert forall x :: x in l <==> x == l[0] || x in l[1..];
  }

  lemma InitLives(s: State)
    requires Dying(s)
    ensures INIT in s.procs && INIT in s.kids && s.procs[INIT].life != Zombie && s.current != INIT && s.current in s.kids
    ensures s.current in s.procs && s.current != IDLE && s.kids.Keys == s.procs.Keys
  {
  }

  lemma {:induction false} AllHandedOver(s: State)
    requires Dying(s)
    ensures Orphans(s) && INIT in s.procs && s.current in s.kids
    ensures forall q :: q in s.procs ==> AfterHandOver(s, AdoptAll(s), q)
    ensures AdoptAll(s).queue == s.queue + InitIfTold(s)
    decreases |s.kids[s.current]|
  {
    hide Dying, AdoptOne, AdoptAll, LeavesZombie, AfterHandOver, InitIfTold, Orphans, Known;
    InitLives(s);
    DyingOrphans(s);
    if s.kids[s.current] == [] {
      NobodyHandedOver(s);
    } else {
      OneHandedOver(s);
      var t := AdoptOne(s);
      AdoptOneKeeps(s);
      AdoptOneShape(s);
      AllHandedOver(t);
      AdoptAllStep(s);
      InitLives(t);
      LeavesZombieStep(s, t);
      forall q | q in s.procs ensures AfterHandOver(s, AdoptAll(s), q) { HandOverJoins(s, t, AdoptAll(s), q); }
      ToldOnce(s, t);
    }
  }

  lemma DyingOrphans(s: State)
    requires Dying(s)
    ensures Orphans(s)
  {
    OrphansKnown(s);
  }

  lemma NobodyHandedOver(s: State)
    requires Orphans(s) && s.kids[s.current] == []
    ensures AdoptAll(s) == s && InitIfTold(s) == [] && forall q :: q in s.procs ==> AfterHandOver(s, s, q)
  {
  }

  lemma AdoptAllStep(s: State)
    requires Orphans(s) && s.kids[s.current] != [] && Orphans(AdoptOne(s))
    ensures AdoptAll(s) == AdoptAll(AdoptOne(s))
  {
    hide AdoptOne;
  }

  /** Init is told of the first zombie and no more. */
  lemma ToldOnce(s: State, t: State)
    requires s.current in s.kids && s.kids[s.current] != [] && INIT in s.procs && INIT in t.procs
    requires var c := s.kids[s.current][0];
      && c in s.procs && c != INIT && (LeavesZombie(s) <==> s.procs[c].life == Zombie || LeavesZombie(t))
      && var told := s.procs[INIT].wait.OnChild? && s.procs[c].life == Zombie;
         && t.procs[INIT].wait == (if told then Awake else s.procs[INIT].wait)
         && t.queue == s.queue + if told then [INIT] else []
    ensures t.queue + InitIfTold(t) == s.queue + InitIfTold(s)
  {
    hide LeavesZombie;
  }

  lemma HandOverJoins(s: State, t: State, a: State, q: int)
    requires s.current in s.kids && s.kids[s.current] != [] && t.current == s.current && t.current in t.kids && INIT in s.procs
    requires q in s.procs && q in t.procs && q in a.procs && t.kids[s.current] == s.kids[s.current][1..] && INIT in t.procs
    requires var c := s.kids[s.current][0];
      && c in s.procs && c != INIT
      && var told := s.procs[INIT].wait.OnChild? && s.procs[c].life == Zombie;
         && t.procs == (if told
              then s.procs[c := s.procs[c].(parent := INIT)][INIT := s.procs[INIT].(life := Runnable, wait := Awake)]
              else s.procs[c := s.procs[c].(parent := INIT)])
         && (LeavesZombie(s) <==> s.procs[c].life == Zombie || LeavesZombie(t))
    requires AfterHandOver(t, a, q)
    ensures AfterHandOver(s, a, q)
  {
    hide LeavesZombie;
    var l := s.kids[s.current];
    assert q in l <==> q == l[0] || q in l[1..] by { assert l == [l[0]] + l[1..]; }
  }

  /** The death itself: the zombie with its code, and the parent woken if it waits. */
  lemma DeathIs(s: State, code: int)
    requires Inv(s) && Enabled(s, DoExit(code))
    ensures var me, p := s.current, s.procs[s.current].parent;
      && p in s.procs && p != me && s.procs[p].life != Zombie
      && var t := Die(s, code);
         && t.kids == s.kids && t.current == me
         && t.procs == (if s.procs[p].wait.OnChild?
              then s.procs[me := s.procs[me].(life := Zombie, code := code)][p := s.procs[p].(life := Runnable, wait := Awake)]
              else s.procs[me := s.procs[me].(life := Zombie, code := code)])
         && t.queue == s.queue + if s.procs[p].wait.OnChild? then [p] else []
  {
    ParentLives(s, s.current);
    ParentNotSelf(s, s.current);
    assert WaitOk(s, s.procs[s.current].parent);
    if s.procs[s.current].parent == IDLE { IdleAwake(s); }
    hide Tree, Rooted, Queue, Waits;
  }

  lemma IdleAwake(s: State)
    requires Inv(s)
    ensures !s.procs[IDLE].wait.OnChild?
  {
    assert WaitOk(s, IDLE);
  }

  lemma SameZombies(s: State, t: State)
    requires s.current in s.kids && t.kids == s.kids && t.current == s.current && t.procs.Keys == s.procs.Keys
    requires forall c :: c in s.kids[s.current] && c in s.procs ==> (t.procs[c].life == Zombie <==> s.procs[c].life == Zombie)
    ensures LeavesZombie(t) <==> LeavesZombie(s)
  {
  }

  lemma NotOwnChild(s: State)
    requires Inv(s) && s.current != IDLE
    ensures s.current in s.kids && s.current !in s.kids[s.current]
  {
    assert KidsOk(s, s.current);
    if s.current in s.kids[s.current] {
      assert KidOk(s, s.current, s.current);
      ParentNotSelf(s, s.current);
    }
  }

  lemma ExitHasEffect(s: State, code: int)
    requires Inv(s) && Enabled(s, DoExit(code))
    ensures HasExited(s, Step(s, DoExit(code)), code)
  {
    hide Dying, Die, AdoptAll, Step, Inv, LeavesZombie, AfterHandOver, HasExited, AfterExitOf, Schedule, HandOver, Orphans, InitIfTold;
    DeathIs(s, code);
    ExitParts(s, code);
    var d := Die(s, code);
    AllHandedOver(d);
    AdoptAllKids(d);
    InitLives(d);
    var a, t := AdoptAll(d), Schedule(AdoptAll(d));
    SameZombies(s, d);
    DispatchAfterExit(s, d, a);
    forall q | q in s.procs ensures AfterExitOf(s, t, code, q) { ExitOfOne(s, d, a, t, code, q); }
    HandedKids(s, t, code);
  }

  lemma ExitParts(s: State, code: int)
    requires Inv(s) && Enabled(s, DoExit(code))
    ensures s.current in s.procs && s.procs[s.current].parent in s.procs && Dying(Die(s, code)) && Orphans(Die(s, code))
    ensures Step(s, DoExit(code)) == Schedule(AdoptAll(Die(s, code)))
    ensures s.current in s.kids && s.current !in s.kids[s.current]
  {
    DieKeeps(s, code);
    ExitKeeps(s, code);
    NotOwnChild(s);
    hide Dying, Die, AdoptAll, Tree, Rooted, Queue, Waits, Dead;
  }

  lemma DispatchAfterExit(s: State, d: State, a: State)
    requires s.current in s.procs && INIT in s.procs && INIT in d.procs && s.procs[s.current].parent in s.procs
    requires a.current == d.current == s.current && s.current != INIT && s.current in a.procs && s.current in d.procs
    requires s.current in d.kids && d.procs[s.current].life == Zombie && AfterHandOver(d, a, s.current)
    requires (LeavesZombie(d) <==> LeavesZombie(s))
    requires var p := s.procs[s.current].parent;
      && d.procs[INIT].wait == (if p == INIT && s.procs[INIT].wait.OnChild? then Awake else s.procs[INIT].wait)
      && d.queue == s.queue + (if s.procs[p].wait.OnChild? then [p] else []) && a.queue == d.queue + InitIfTold(d)
    ensures GoesTo(s.queue + ToldInTurn(s), Schedule(a)) && Schedule(a).procs == a.procs && Schedule(a).kids == a.kids
  {
    hide LeavesZombie;
    assert a.queue == s.queue + ToldInTurn(s);
  }

  lemma ExitOfOne(s: State, d: State, a: State, t: State, code: int, q: int)
    requires s.current in s.procs && s.current in s.kids && d.kids == s.kids && d.current == s.current && t.procs == a.procs
    requires q in s.procs && q in d.procs && q in a.procs && s.current !in s.kids[s.current] && INIT in s.procs && INIT in d.procs
    requires (LeavesZombie(d) <==> LeavesZombie(s)) && s.current != INIT
    requires var me, p := s.current, s.procs[s.current].parent;
      && p in s.procs && p != me
      && d.procs == (if s.procs[p].wait.OnChild?
           then s.procs[me := s.procs[me].(life := Zombie, code := code)][p := s.procs[p].(life := Runnable, wait := Awake)]
           else s.procs[me := s.procs[me].(life := Zombie, code := code)])
    requires AfterHandOver(d, a, q)
    ensures AfterExitOf(s, t, code, q)
  {
    hide LeavesZombie;
  }

  lemma HandedKids(s: State, t: State, code: int)
    requires s.current in s.procs && s.current in s.kids && INIT in s.kids && s.current != INIT
    requires t.procs.Keys == s.procs.Keys && t.kids == HandOver(s.kids, s.current) && GoesTo(s.queue + ToldInTurn(s), t)
    requires forall q :: q in s.procs ==> AfterExitOf(s, t, code, q)
    ensures HasExited(s, t, code)
  {
    hide AfterExitOf, GoesTo;
    ReversedIs(s.kids[s.current]);
  }

  lemma {:induction false} ReversedIs(l: seq<int>)
    ensures |Reversed(l)| == |l| && forall i :: 0 <= i < |l| ==> Reversed(l)[i] == l[|l| - 1 - i]
  {
    if l != [] {
      ReversedIs(l[1..]);
    }
  }

  // ---- The code of a zombie ----

  /** A zombie stays one, with its code, until its parent collects it. */
  lemma ZombieStays(s: State, op: Op, z: int)
    requires Inv(s) && Enabled(s, op) && z in s.procs && s.procs[z].life == Zombie
    ensures var t := Step(s, op);
      if z in t.procs then t.procs[z].life == Zombie && t.procs[z].code == s.procs[z].code
      else op.DoWait? && s.current in s.kids && z in s.kids[s.current] && (op.asked == 0 || op.asked == z)
  {
    StepHasEffect(s, op);
    assert WaitOk(s, z);
    var t := Step(s, op);
    hide Tree, Rooted, Queue, Waits, Step;
    match op
    case DoExit(code) => assert AfterExitOf(s, t, code, z);
    case DoWait(asked) =>
      if i: nat :| CollectedAt(s, t, asked, i) { assert s.kids[s.current][i] in s.kids[s.current]; }
    case _ =>
  }

  /** The process is there all along the run. */
  ghost predicate Uncollected(s: State, ops: seq<Op>, z: int)
    requires Inv(s)
  {
    forall k :: 0 <= k <= |ops| ==> z in Run(s, ops[..k]).procs
  }

  lemma {:induction false} ZombieKeepsCode(s: State, ops: seq<Op>, z: int)
    requires Inv(s) && Possible(s, ops) && z in s.procs && s.procs[z].life == Zombie && Uncollected(s, ops, z)
    ensures var t := Run(s, ops); z in t.procs && t.procs[z].life == Zombie && t.procs[z].code == s.procs[z].code
    decreases |ops|
  {
    hide Inv, Step, Enabled;
    assert ops[..|ops|] == ops;
    if ops != [] {
      var front, op := ops[..|ops| - 1], ops[|ops| - 1];
      forall k | 0 <= k <= |front| ensures z in Run(s, front[..k]).procs { assert front[..k] == ops[..k]; }
      ZombieKeepsCode(s, front, z);
      ZombieStays(Run(s, front), op, z);
    }
  }

  /** The code given to exit is what the zombie holds, however long it waits to be collected. */
  lemma ExitCodeIsKept(s: State, code: int, ops: seq<Op>)
    requires Inv(s) && Enabled(s, DoExit(code)) && Inv(Step(s, DoExit(code))) && Possible(Step(s, DoExit(code)), ops)
    requires Uncollected(Step(s, DoExit(code)), ops, s.current)
    ensures var t := Run(Step(s, DoExit(code)), ops);
      s.current in t.procs && t.procs[s.current].life == Zombie && t.procs[s.current].code == code
  {
    var d := Step(s, DoExit(code));
    StepHasEffect(s, DoExit(code));
    assert AfterExitOf(s, d, code, s.current);
    hide Inv, Step, Enabled;
    ZombieKeepsCode(d, ops, s.current);
  }
}
