/** The kernel's own code for processes: sibling pointers, the scheduler and the calls that use them. */
module ProcessKernel {
  import opened Process
  import PE = ProcessEffects

  const NIL := -1

  function First(l: seq<int>): int { if l == [] then NIL else l[0] }

  ghost predicate SibOk(optr: map<int, int>, yptr: map<int, int>, l: seq<int>, i: int) {
    && 0 <= i < |l| && l[i] in optr && l[i] in yptr && l[i] != NIL
    && optr[l[i]] == (if i + 1 < |l| then l[i + 1] else NIL)
    && yptr[l[i]] == (if i > 0 then l[i - 1] else NIL)
  }

  ghost predicate SibsOk(optr: map<int, int>, yptr: map<int, int>, l: seq<int>) {
    forall i :: 0 <= i < |l| ==> SibOk(optr, yptr, l, i)
  }

  /** The same, but the youngest may still point at a sibling that has left. */
  ghost predicate SibsButFirst(optr: map<int, int>, yptr: map<int, int>, l: seq<int>) {
    && (l != [] ==> l[0] in yptr && SibsOk(optr, yptr[l[0] := NIL], l))
  }

  ghost predicate ListOk(cptr: map<int, int>, optr: map<int, int>, yptr: map<int, int>, l: seq<int>, p: int) {
    p in cptr && cptr[p] == First(l) && SibsOk(optr, yptr, l)
  }

  /** The child and sibling pointers spell out every list of children. */
  ghost predicate Spelled(cptr: map<int, int>, optr: map<int, int>, yptr: map<int, int>, kids: map<int, seq<int>>) {
    forall p :: p in kids ==> ListOk(cptr, optr, yptr, kids[p], p)
  }

  // ---- Lists under pointer stores ----

  lemma SibsElsewhere(optr: map<int, int>, yptr: map<int, int>, o: map<int, int>, y: map<int, int>, l: seq<int>)
    requires SibsOk(optr, yptr, l)
    requires forall c :: c in l && c in optr && c in yptr ==> c in o && c in y && o[c] == optr[c] && y[c] == yptr[c]
    ensures SibsOk(o, y, l)
  {
    forall i | 0 <= i < |l| ensures SibOk(o, y, l, i) { assert SibOk(optr, yptr, l, i); }
  }

  function YptrAfterPush(yptr: map<int, int>, l: seq<int>, c: int): map<int, int> {
    if l == [] then yptr[c := NIL] else yptr[c := NIL][l[0] := c]
  }

  lemma PushFront(optr: map<int, int>, yptr: map<int, int>, l: seq<int>, c: int)
    requires SibsOk(optr, yptr, l) && Distinct(l) && c !in l && c != NIL
    ensures SibsOk(optr[c := First(l)], YptrAfterPush(yptr, l, c), [c] + l)
  {
    var o, y, m := optr[c := First(l)], YptrAfterPush(yptr, l, c), [c] + l;
    forall i | 0 <= i < |m| ensures SibOk(o, y, m, i) {
      if i > 0 { assert SibOk(optr, yptr, l, i - 1); }
    }
  }

  function OptrAfterUnlink(optr: map<int, int>, yptr: map<int, int>, c: int): map<int, int>
    requires c in optr && c in yptr
  {
    if yptr[c] != NIL then optr[yptr[c] := optr[c]] else optr
  }

  function YptrAfterUnlink(optr: map<int, int>, yptr: map<int, int>, c: int): map<int, int>
    requires c in optr && c in yptr
  {
    if optr[c] != NIL then yptr[optr[c] := yptr[c]] else yptr
  }

  lemma Unlink(optr: map<int, int>, yptr: map<int, int>, l: seq<int>, i: nat)
    requires SibsOk(optr, yptr, l) && Distinct(l) && i < |l| && l[i] in optr && l[i] in yptr
    ensures SibsOk(OptrAfterUnlink(optr, yptr, l[i]), YptrAfterUnlink(optr, yptr, l[i]), Remove(l, i))
  {
    var o, y, m := OptrAfterUnlink(optr, yptr, l[i]), YptrAfterUnlink(optr, yptr, l[i]), Remove(l, i);
    assert SibOk(optr, yptr, l, i);
    forall j | 0 <= j < |m| ensures SibOk(o, y, m, j) {
      assert SibOk(optr, yptr, l, if j < i then j else j + 1);
      if i > 0 { assert SibOk(optr, yptr, l, i - 1); }
    }
  }

  /** Moving the youngest child from one list to the front of another. */
  lemma PopFirst(optr: map<int, int>, yptr: map<int, int>, l: seq<int>, o: map<int, int>, y: map<int, int>)
    requires l != [] && SibsButFirst(optr, yptr, l) && Distinct(l)
    requires forall c :: c in l[1..] && c in optr && c in yptr ==> c in o && c in y && o[c] == optr[c] && y[c] == yptr[c]
    ensures l[0] in optr && optr[l[0]] == First(l[1..]) && l[0] != NIL
    ensures SibsButFirst(o, y, l[1..])
  {
    var z, m := yptr[l[0] := NIL], l[1..];
    assert SibOk(optr, z, l, 0);
    if m != [] {
      assert SibOk(optr, z, l, 1);
      assert m[0] in m;
      var w := y[m[0] := NIL];
      forall i | 0 <= i < |m| ensures SibOk(o, w, m, i) {
        assert SibOk(optr, z, l, i + 1);
        assert m[i] in m;
      }
    }
  }

  /** No process is in two places. */
  ghost predicate Families(kids: map<int, seq<int>>) {
    && (forall p :: p in kids ==> Distinct(kids[p]) && NIL !in kids[p])
    && (forall p, q :: p in kids && q in kids && p != q ==> Strangers(kids[p], kids[q]))
  }

  ghost predicate Strangers(l: seq<int>, m: seq<int>) { forall c :: c in l ==> c !in m }

  lemma TreeIsFamilies(s: State)
    requires Tree(s)
    ensures Families(s.kids)
  {
    forall p | p in s.kids ensures Distinct(s.kids[p]) && NIL !in s.kids[p] {
      assert KidsOk(s, p);
      assert NIL in s.kids[p] ==> KidOk(s, p, NIL);
    }
    forall p, q | p in s.kids && q in s.kids && p != q ensures Strangers(s.kids[p], s.kids[q]) {
      assert KidsOk(s, p) && KidsOk(s, q);
      forall c | c in s.kids[p] ensures c !in s.kids[q] { assert KidOk(s, p, c) && (c in s.kids[q] ==> KidOk(s, q, c)); }
    }
  }

  lemma FirstIsIn(l: seq<int>)
    ensures l != [] ==> First(l) in l
  {
  }

  lemma SpelledAfterPush(cptr: map<int, int>, optr: map<int, int>, yptr: map<int, int>, kids: map<int, seq<int>>, c: int, p: int)
    requires Spelled(cptr, optr, yptr, kids) && Families(kids) && p in kids && c !in kids && c != NIL
    requires forall q :: q in kids ==> c !in kids[q]
    ensures Spelled(cptr[c := NIL][p := c], optr[c := First(kids[p])], YptrAfterPush(yptr, kids[p], c),
                    kids[c := []][p := [c] + kids[p]])
  {
    var o, y, k := optr[c := First(kids[p])], YptrAfterPush(yptr, kids[p], c), kids[c := []][p := [c] + kids[p]];
    FirstIsIn(kids[p]);
    forall q | q in k ensures ListOk(cptr[c := NIL][p := c], o, y, k[q], q) {
      if q == p {
        assert ListOk(cptr, optr, yptr, kids[p], p);
        PushFront(optr, yptr, kids[p], c);
      } else if q != c {
        assert ListOk(cptr, optr, yptr, kids[q], q) && Strangers(kids[p], kids[q]);
        SibsElsewhere(optr, yptr, o, y, kids[q]);
      }
    }
  }

  lemma SpelledAfterUnlink(cptr: map<int, int>, optr: map<int, int>, yptr: map<int, int>, kids: map<int, seq<int>>, p: int, i: nat)
    requires Spelled(cptr, optr, yptr, kids) && Families(kids) && p in kids && i < |kids[p]|
    ensures var c := kids[p][i];
      && c in optr && c in yptr
      && Spelled(if yptr[c] != NIL then cptr else cptr[p := optr[c]], OptrAfterUnlink(optr, yptr, c), YptrAfterUnlink(optr, yptr, c),
                 kids[p := Remove(kids[p], i)] - {c})
  {
    var c, l := kids[p][i], kids[p];
    assert ListOk(cptr, optr, yptr, l, p) && SibOk(optr, yptr, l, i);
    var o, y, k := OptrAfterUnlink(optr, yptr, c), YptrAfterUnlink(optr, yptr, c), kids[p := Remove(l, i)] - {c};
    var h := if yptr[c] != NIL then cptr else cptr[p := optr[c]];
    if i > 0 { assert SibOk(optr, yptr, l, i - 1); assert l[i - 1] in l; }
    if i + 1 < |l| { assert l[i + 1] in l; }
    forall q | q in k ensures ListOk(h, o, y, k[q], q) {
      if q == p {
        Unlink(optr, yptr, l, i);
      } else {
        assert ListOk(cptr, optr, yptr, kids[q], q) && Strangers(l, kids[q]);
        SibsElsewhere(optr, yptr, o, y, kids[q]);
      }
    }
  }

  // ---- The hand-over loop ----

  ghost predicate SpelledButFirst(cptr: map<int, int>, optr: map<int, int>, yptr: map<int, int>, kids: map<int, seq<int>>, p: int) {
    && p in kids && p in cptr && cptr[p] == First(kids[p]) && SibsButFirst(optr, yptr, kids[p])
    && forall q :: q in kids && q != p ==> ListOk(cptr, optr, yptr, kids[q], q)
  }

  lemma SpelledAfterHandOver(cptr: map<int, int>, optr: map<int, int>, yptr: map<int, int>, kids: map<int, seq<int>>, p: int, d: int)
    requires SpelledButFirst(cptr, optr, yptr, kids, p) && Families(kids) && d in kids && d != p && kids[p] != []
    ensures var c := kids[p][0];
      && c != NIL && c in optr && optr[c] == First(kids[p][1..]) && cptr[p] == c && d in cptr && cptr[d] == First(kids[d])
      && (kids[d] != [] ==> kids[d][0] in yptr)
      && SpelledButFirst(cptr[p := optr[c]][d := c], optr[c := First(kids[d])], YptrAfterPush(yptr, kids[d], c),
                         kids[p := kids[p][1..]][d := [c] + kids[d]], p)
  {
    var c, l := kids[p][0], kids[p];
    assert ListOk(cptr, optr, yptr, kids[d], d) && Strangers(l, kids[d]) && c in l;
    var o, y, k := optr[c := First(kids[d])], YptrAfterPush(yptr, kids[d], c), kids[p := l[1..]][d := [c] + kids[d]];
    FirstIsIn(kids[d]);
    if kids[d] != [] { assert SibOk(optr, yptr, kids[d], 0); }
    assert forall x :: x in l[1..] ==> x in l && x != c;
    PopFirst(optr, yptr, l, o, y);
    PushFront(optr, yptr, kids[d], c);
    forall q | q in k && q != p ensures ListOk(cptr[p := optr[c]][d := c], o, y, k[q], q) {
      if q != d {
        assert ListOk(cptr, optr, yptr, kids[q], q) && Strangers(l, kids[q]) && Strangers(kids[d], kids[q]);
        SibsElsewhere(optr, yptr, o, y, kids[q]);
      }
    }
  }

  // ---- The kernel ----

  datatype KillResult = Killed | ExitingAlready | NoSuchProcess

  datatype WaitResult = Collected(pid: int, code: int) | Slept | NoChild

  /** The youngest zombie asked for is collected, with its code; or the process sleeps for children asked for, none of
      them a zombie; or it is told that it has no child asked for, and nothing changes. */
  ghost predicate Answers(s: State, t: State, asked: int, r: WaitResult) {
    && s.current in s.kids
    && match r
       case Collected(pid, code) =>
         && (exists i: nat :: PE.CollectedAt(s, t, asked, i) && pid == s.kids[s.current][i])
         && pid in s.procs && code == s.procs[pid].code
       case Slept => PE.WentToSleep(s, t, asked)
       case NoChild => t == s && forall c :: c in s.kids[s.current] ==> asked != 0 && asked != c
  }

  lemma AnswersKeys(s: State, t: State, asked: int, r: WaitResult)
    requires Answers(s, t, asked, r)
    ensures t.procs.Keys == (if r.Collected? then s.procs.Keys - {r.pid} else s.procs.Keys)
    ensures r.Collected? ==> r.pid in s.procs && r.pid in s.kids[s.current]
  {
    if r.Collected? {
      var i: nat :| PE.CollectedAt(s, t, asked, i) && r.pid == s.kids[s.current][i];
      assert s.kids[s.current][i] in s.kids[s.current];
    }
  }

  class Kernel {
    var procs: map<int, Proc>
    var cptr: map<int, int>
    var optr: map<int, int>
    var yptr: map<int, int>
    var runList: seq<int>
    var current: int
    ghost var kids: map<int, seq<int>>

    ghost function Abs(): State
      reads this
    {
      State(procs, kids, runList, current)
    }

    ghost predicate Valid()
      reads this
    {
      Inv(Abs()) && Spelled(cptr, optr, yptr, kids)
    }

    /** A process that may be put in the run queue is not in it already. */
    ghost predicate Unqueued(p: int)
      reads this
    {
      p == IDLE || p !in runList
    }

    constructor ()
      ensures Valid() && Abs() == Boot()
    {
      procs, kids := Boot().procs, Boot().kids;
      runList, current := [INIT], IDLE;
      cptr, optr, yptr := map[IDLE := INIT, INIT := NIL], map[INIT := NIL], map[INIT := NIL];
      new;
      BootOk();
      assert SibOk(optr, yptr, [INIT], 0);
      forall p | p in kids ensures ListOk(cptr, optr, yptr, kids[p], p) { }
    }

    method EnqueueProc(p: int)
      requires Unqueued(p)
      modifies this`runList
      ensures Abs() == Enqueue(old(Abs()), p)
    {
      if p != IDLE {
        assert p !in runList;
        runList := runList + [p];
      }
    }

    method WakeupProc(p: int)
      requires p in procs && procs[p].life != Zombie && Queue(Abs())
      modifies this`procs, this`runList
      ensures Abs() == Wakeup(old(Abs()), p)
    {
      assert QueueOk(Abs(), p);
      if procs[p].life != Runnable {
        procs := procs[p := procs[p].(life := Runnable, wait := Awake)];
        if p != current { EnqueueProc(p); }
      }
    }

    method Schedule_()
      requires current in procs && Queue(Abs())
      modifies this`runList, this`current
      ensures Abs() == Schedule(old(Abs()))
    {
      assert QueueOk(Abs(), current);
      if procs[current].life == Runnable { EnqueueProc(current); }
      if runList != [] {
        current, runList := runList[0], runList[1..];
      } else {
        current := IDLE;
      }
    }

    /** Put a new process at the front of its parent's children. */
    method SetLinks(p: int)
      requires Spelled(cptr, optr, yptr, kids) && Families(kids) && p !in kids && p != NIL && current in kids
      requires forall q :: q in kids ==> p !in kids[q]
      modifies this`cptr, this`optr, this`yptr, this`kids
      ensures Spelled(cptr, optr, yptr, kids) && Abs() == Link(old(Abs()), p, current)
    {
      SpelledAfterPush(cptr, optr, yptr, kids, p, current);
      assert ListOk(cptr, optr, yptr, kids[current], current);
      if kids[current] != [] { assert SibOk(optr, yptr, kids[current], 0); }
      cptr := cptr[p := NIL];
      yptr := yptr[p := NIL];
      optr := optr[p := cptr[current]];
      if optr[p] != NIL { yptr := yptr[optr[p] := p]; }
      cptr := cptr[current := p];
      kids := kids[p := []][current := [p] + kids[current]];
    }

    /** Take the i-th child of the running process out of the family. */
    method RemoveLinks(p: int, ghost i: nat)
      requires Spelled(cptr, optr, yptr, kids) && Families(kids) && current in kids && i < |kids[current]| && p == kids[current][i]
      modifies this`cptr, this`optr, this`yptr, this`kids
      ensures Spelled(cptr, optr, yptr, kids) && kids == old(kids)[current := Remove(old(kids)[current], i)] - {p}
    {
      SpelledAfterUnlink(cptr, optr, yptr, kids, current, i);
      assert ListOk(cptr, optr, yptr, kids[current], current) && SibOk(optr, yptr, kids[current], i);
      if i > 0 { assert SibOk(optr, yptr, kids[current], i - 1) && kids[current][i - 1] != p; }
      if optr[p] != NIL { yptr := yptr[optr[p] := yptr[p]]; }
      if yptr[p] != NIL {
        optr := optr[yptr[p] := optr[p]];
      } else {
        cptr := cptr[current := optr[p]];
      }
      kids := kids[current := Remove(kids[current], i)] - {p};
    }

    method DoFork_(child: int)
      requires Valid() && Enabled(Abs(), DoFork(child))
      modifies this
      ensures Valid() && Abs() == Step(old(Abs()), DoFork(child))
      ensures PE.HasForked(old(Abs()), Abs(), child)
    {
      EffectOfDoFork(Abs(), child);
      hide PE.HasForked;
      StepKeeps(Abs(), DoFork(child));
      TreeIsFamilies(Abs());
      NewIsNobodys(Abs(), child);
      assert procs[current].wait == Awake by { assert WaitOk(Abs(), current); }
      ghost var s := Abs();
      hide Inv, Spelled;
      procs := procs[child := Proc(Sleeping, Awake, false, 0, current)];
      SetLinks(child);
      ForkQueues(s, Abs(), child);
      WakeupProc(child);
    }

    /** Die, tell the parent, hand every child to init, and give up the processor for good. */
    method DoExit_(code: int)
      requires Valid() && Enabled(Abs(), DoExit(code))
      modifies this
      ensures Valid() && Abs() == Step(old(Abs()), DoExit(code))
      ensures PE.HasExited(old(Abs()), Abs(), code)
    {
      EffectOfDoExit(Abs(), code);
      hide Inv, Spelled, Step, Enabled, PE.HasExited;
      Leave(code);
    }

    method Leave(code: int)
      requires Valid() && Enabled(Abs(), DoExit(code))
      modifies this
      ensures Valid() && Abs() == Step(old(Abs()), DoExit(code))
    {
      hide Inv, Spelled, AdoptAll, Die, Dying, Schedule, Step, Orphans, Enabled, OneDies;
      ExitSteps(Abs(), code);
      Perish(code);
      HandOverAll();
      Schedule_();
    }

    method Perish(code: int)
      requires Valid() && Enabled(Abs(), DoExit(code))
      modifies this`procs, this`runList
      ensures old(Abs()).procs[current].parent in old(Abs()).procs
      ensures Abs() == Die(old(Abs()), code) && Dying(Abs())
    {
      ghost var s := Abs();
      DieReady(s, code);
      hide Inv, Enabled, Spelled, Families, Dying, Queue;
      var parent := procs[current].parent;
      procs := procs[current := procs[current].(life := Zombie, code := code)];
      SameQueue(s, Abs());
      if procs[parent].wait.OnChild? { WakeupProc(parent); }
    }

    method HandOverAll()
      requires Dying(Abs()) && Spelled(cptr, optr, yptr, kids)
      modifies this`procs, this`cptr, this`optr, this`yptr, this`runList, this`kids
      ensures Orphans(old(Abs())) && Abs() == AdoptAll(old(Abs()))
      ensures Spelled(cptr, optr, yptr, kids)
      ensures current in procs && procs[current].life == Zombie && Queue(Abs())
    {
      ghost var dying := Abs();
      OrphansKnown(dying);
      SpelledButAny(cptr, optr, yptr, kids, current);
      hide Spelled, SpelledButFirst, AdoptOne;
      while cptr[current] != NIL
        invariant Dying(Abs()) && Orphans(Abs()) && current in cptr
        invariant AdoptAll(Abs()) == AdoptAll(dying)
        invariant SpelledButFirst(cptr, optr, yptr, kids, current)
        decreases |kids[current]|
      {
        AdoptOneShape(Abs());
        HandOverFirst();
      }
      HandedOver(cptr, optr, yptr, kids, current);
    }

    /** One turn of the loop: the youngest child goes to init, which is woken for a zombie. */
    method HandOverFirst()
      requires Dying(Abs()) && Orphans(Abs()) && current in cptr && cptr[current] != NIL
      requires SpelledButFirst(cptr, optr, yptr, kids, current)
      modifies this`procs, this`cptr, this`optr, this`yptr, this`runList, this`kids
      ensures old(kids)[current] != [] && Abs() == AdoptOne(old(Abs())) && Dying(Abs()) && Orphans(Abs())
      ensures SpelledButFirst(cptr, optr, yptr, kids, current) && current in cptr
    {
      hide Dying, Orphans, Spelled, SpelledButFirst, Families, Queue;
      ghost var s := Abs();
      SomeChild(cptr, optr, yptr, kids, current);
      MoveReady(s);
      var p := cptr[current];
      MoveToInit();
      procs := procs[p := procs[p].(parent := INIT)];
      SameQueue(s, Abs());
      if procs[p].life == Zombie {
        if procs[INIT].wait.OnChild? { WakeupProc(INIT); }
      }
    }

    /** The pointer stores of that turn. */
    method MoveToInit()
      requires SpelledButFirst(cptr, optr, yptr, kids, current) && Families(kids) && kids[current] != []
      requires INIT in kids && current != INIT
      modifies this`cptr, this`optr, this`yptr, this`kids
      ensures old(cptr)[current] == old(kids)[current][0]
      ensures kids == old(kids)[current := old(kids)[current][1..]][INIT := [old(kids)[current][0]] + old(kids)[INIT]]
      ensures SpelledButFirst(cptr, optr, yptr, kids, current) && current in cptr
    {
      SpelledAfterHandOver(cptr, optr, yptr, kids, current, INIT);
      FirstKnown(optr, yptr, kids[INIT], cptr, INIT, kids, current);
      hide SpelledButFirst, Families;
      var p := cptr[current];
      cptr := cptr[current := optr[p]];
      yptr := yptr[p := NIL];
      optr := optr[p := cptr[INIT]];
      if optr[p] != NIL { yptr := yptr[cptr[INIT] := p]; }
      cptr := cptr[INIT := p];
      kids := kids[current := kids[current][1..]][INIT := [p] + kids[INIT]];
    }

    /** Collect a zombie child; or sleep, to look again once woken; or fail. */
    method DoWait_(asked: int) returns (r: WaitResult)
      requires Valid() && Enabled(Abs(), DoWait(asked))
      modifies this
      ensures Valid() && Abs() == Step(old(Abs()), DoWait(asked)) && Answers(old(Abs()), Abs(), asked, r)
    {
      ghost var s, l := Abs(), kids[current];
      WaitFits(s, asked);
      hide Inv, Spelled, Families, Step, Enabled, Collectable, Reap, Schedule, Queue, Known, Asks, Sleeps, Answers;
      var child, hasKid := FindZombie(asked);
      ghost var i := Collectable(s, l, asked);
      if child != NIL {
        r := Collect(child, i);
      } else if hasKid {
        SleepForChild(asked);
        r := Slept;
      } else {
        r := NoChild;
      }
      WaitAnswers(s, Abs(), asked, i, r);
    }

    method Collect(child: int, ghost i: nat) returns (r: WaitResult)
      requires Spelled(cptr, optr, yptr, kids) && Families(kids) && current in kids
      requires i < |kids[current]| && child == kids[current][i] && child in procs
      modifies this
      ensures Spelled(cptr, optr, yptr, kids) && Abs() == Reap(old(Abs()), i)
      ensures procs.Keys == old(procs).Keys - {child} && r == Collected(child, old(procs)[child].code)
    {
      hide Spelled, Families;
      r := Collected(child, procs[child].code);
      RemoveLinks(child, i);
      procs := procs - {child};
    }

    method SleepForChild(asked: int)
      requires current in procs && procs[current].life == Runnable && Queue(Abs())
      modifies this`procs, this`runList, this`current
      ensures procs.Keys == old(procs).Keys
      ensures Abs() == Schedule(Sleeps(old(Abs()), asked))
    {
      ghost var s := Abs();
      procs := procs[current := procs[current].(life := Sleeping, wait := OnChild(asked))];
      SameQueue(s, Abs());
      Schedule_();
    }

    /** The scan: the child by its pid, or each child from the youngest on. */
    method FindZombie(asked: int) returns (child: int, hasKid: bool)
      requires Valid() && Known(Abs(), kids[current])
      ensures var i := Collectable(Abs(), kids[current], asked);
        if i < |kids[current]| then child == kids[current][i] && child != NIL else child == NIL
      ensures hasKid <==> exists c :: c in kids[current] && Asks(asked, c)
    {
      ghost var s, l := Abs(), kids[current];
      child, hasKid := NIL, false;
      TreeIsFamilies(s);
      if asked != 0 {
        ChildByPid(s, asked);
        if asked > IDLE && asked in procs && procs[asked].parent == current {
          hasKid := true;
          if procs[asked].life == Zombie { child := asked; }
        }
      } else {
        assert ListOk(cptr, optr, yptr, l, current);
        hide Inv, Families;
        var p := cptr[current];
        ghost var i := 0;
        while p != NIL
          invariant 0 <= i <= |l| && p == (if i < |l| then l[i] else NIL) && child == NIL
          invariant hasKid <==> i > 0
          invariant forall j :: 0 <= j < i ==> procs[l[j]].life != Zombie
          decreases |l| - i
        {
          hasKid := true;
          assert SibOk(optr, yptr, l, i);
          if procs[p].life == Zombie {
            CollectableIs(s, l, asked, i);
            return p, true;
          }
          p := optr[p];
          i := i + 1;
        }
        assert i < |l| ==> SibOk(optr, yptr, l, i);
        CollectableIs(s, l, asked, i);
        if |l| > 0 { assert l[0] in l; }
      }
    }

    method DoKill_(pid: int) returns (r: KillResult)
      requires Valid() && Enabled(Abs(), DoKill(pid))
      modifies this
      ensures Valid() && Abs() == Step(old(Abs()), DoKill(pid))
      ensures r == NoSuchProcess <==> pid == IDLE || pid !in old(procs)
      ensures r == ExitingAlready <==> pid != IDLE && pid in old(procs) && old(procs)[pid].exiting
      ensures PE.WasKilled(old(Abs()), Abs(), pid)
    {
      EffectOfDoKill(Abs(), pid);
      hide PE.WasKilled;
      ghost var s := Abs();
      StepKeeps(s, DoKill(pid));
      KillFits(s, pid);
      hide Inv, Spelled, Queue;
      if pid == IDLE || pid !in procs {
        r := NoSuchProcess;
      } else if procs[pid].exiting {
        r := ExitingAlready;
      } else {
        MarkExiting(pid);
        r := Killed;
      }
    }

    method MarkExiting(pid: int)
      requires pid in procs && pid != IDLE && !procs[pid].exiting && Queue(Abs())
      requires Interruptible(procs[pid].wait) ==> procs[pid].life == Sleeping
      modifies this`procs, this`runList
      ensures Abs() == Kill(old(Abs()), pid)
    {
      ghost var s := Abs();
      hide Queue;
      procs := procs[pid := procs[pid].(exiting := true)];
      SameQueue(s, Abs());
      if Interruptible(procs[pid].wait) { WakeupProc(pid); }
    }

    /** The current process goes to sleep on something other than a child. */
    method DoDoze_(on: Wait)
      requires Valid() && Enabled(Abs(), DoDoze(on))
      modifies this
      ensures Valid() && Abs() == Step(old(Abs()), DoDoze(on))
      ensures PE.HasDozed(old(Abs()), Abs(), on)
    {
      EffectOfDoDoze(Abs(), on);
      hide PE.HasDozed;
      StepKeeps(Abs(), DoDoze(on));
      hide Inv, Spelled;
      procs := procs[current := procs[current].(life := Sleeping, wait := on)];
    }

    /** A timer, a key or a semaphore wakes its sleeper, whoever is running. */
    method Interrupt_(p: int)
      requires Valid() && Enabled(Abs(), Interrupt(p))
      modifies this
      ensures Valid() && Abs() == Step(old(Abs()), Interrupt(p)) && p in procs && procs[p].life == Runnable
      ensures PE.IsWoken(old(Abs()), Abs(), p)
    {
      EffectOfInterrupt(Abs(), p);
      hide PE.IsWoken;
      StepKeeps(Abs(), Interrupt(p));
      assert Queue(Abs());
      hide Inv, Spelled, Queue;
      WakeupProc(p);
    }

    /** The processor is given up, by a sleeper or at the end of a time slice. */
    method Reschedule_()
      requires Valid()
      modifies this
      ensures Valid() && Abs() == Step(old(Abs()), Reschedule)
      ensures PE.HasRescheduled(old(Abs()), Abs())
    {
      EffectOfReschedule(Abs());
      hide PE.HasRescheduled;
      StepKeeps(Abs(), Reschedule);
      assert Queue(Abs()) && current in procs;
      hide Inv, Spelled, Queue;
      Schedule_();
    }
  }

  lemma EffectOfDoFork(s: State, child: int)
    requires Inv(s) && Enabled(s, DoFork(child))
    ensures PE.HasForked(s, Step(s, DoFork(child)), child)
  {
    PE.StepHasEffect(s, DoFork(child));
  }

  lemma EffectOfDoExit(s: State, code: int)
    requires Inv(s) && Enabled(s, DoExit(code))
    ensures PE.HasExited(s, Step(s, DoExit(code)), code)
  {
    PE.StepHasEffect(s, DoExit(code));
  }

  lemma EffectOfDoKill(s: State, pid: int)
    requires Inv(s) && Enabled(s, DoKill(pid))
    ensures PE.WasKilled(s, Step(s, DoKill(pid)), pid)
  {
    PE.StepHasEffect(s, DoKill(pid));
  }

  lemma EffectOfDoDoze(s: State, on: Wait)
    requires Inv(s) && Enabled(s, DoDoze(on))
    ensures PE.HasDozed(s, Step(s, DoDoze(on)), on)
  {
    PE.StepHasEffect(s, DoDoze(on));
  }

  lemma EffectOfInterrupt(s: State, p: int)
    requires Inv(s) && Enabled(s, Interrupt(p))
    ensures PE.IsWoken(s, Step(s, Interrupt(p)), p)
  {
    PE.StepHasEffect(s, Interrupt(p));
  }

  lemma EffectOfReschedule(s: State)
    requires Inv(s) && Enabled(s, Reschedule)
    ensures PE.HasRescheduled(s, Step(s, Reschedule))
  {
    PE.StepHasEffect(s, Reschedule);
  }

  lemma WaitFits(s: State, asked: int)
    requires Inv(s) && Enabled(s, DoWait(asked))
    ensures s.current in s.kids && s.current in s.procs && s.procs[s.current].life == Runnable
    ensures Queue(s) && Families(s.kids) && Known(s, s.kids[s.current])
  {
    ParentLives(s, s.current);
    TreeIsFamilies(s);
  }

  /** What the scan found decides the answer and the step. */
  lemma WaitAnswers(s: State, t: State, asked: int, i: nat, r: WaitResult)
    requires Inv(s) && Enabled(s, DoWait(asked)) && Known(s, s.kids[s.current]) && i == Collectable(s, s.kids[s.current], asked)
    requires match r
      case Collected(pid, code) =>
        i < |s.kids[s.current]| && pid == s.kids[s.current][i] && t == Reap(s, i) && code == s.procs[pid].code
      case Slept => i == |s.kids[s.current]| && t == Schedule(Sleeps(s, asked)) && exists c :: c in s.kids[s.current] && Asks(asked, c)
      case NoChild => t == s && forall c :: c in s.kids[s.current] ==> !Asks(asked, c)
    ensures t == Step(s, DoWait(asked)) && Inv(t) && Answers(s, t, asked, r)
  {
    StepKeeps(s, DoWait(asked));
    AnswerIsRight(s, t, asked, i, r);
    hide Inv, Answers;
  }

  lemma AnswerIsRight(s: State, t: State, asked: int, i: nat, r: WaitResult)
    requires s.current in s.kids && s.current in s.procs && Known(s, s.kids[s.current]) && i == Collectable(s, s.kids[s.current], asked)
    requires match r
      case Collected(pid, code) =>
        i < |s.kids[s.current]| && pid == s.kids[s.current][i] && t == Reap(s, i) && code == s.procs[pid].code
      case Slept => i == |s.kids[s.current]| && t == Schedule(Sleeps(s, asked)) && exists c :: c in s.kids[s.current] && Asks(asked, c)
      case NoChild => t == s && forall c :: c in s.kids[s.current] ==> !Asks(asked, c)
    ensures Answers(s, t, asked, r)
  {
    match r
    case Collected(_, _) => assert PE.CollectedAt(s, t, asked, i);
    case Slept =>
    case NoChild =>
  }

  ghost function Sleeps(s: State, asked: int): State
    requires s.current in s.procs
  {
    s.(procs := s.procs[s.current := s.procs[s.current].(life := Sleeping, wait := OnChild(asked))])
  }

  lemma KillFits(s: State, p: int)
    requires Inv(s) && Enabled(s, DoKill(p))
    ensures Queue(s) && Step(s, DoKill(p)) == Kill(s, p)
    ensures p in s.procs && Interruptible(s.procs[p].wait) ==> s.procs[p].life == Sleeping
  {
    if p in s.procs { assert WaitOk(s, p); }
  }

  /** Only who is runnable matters to the queue, and of the current process not even that. */
  lemma SameQueue(s: State, t: State)
    requires Queue(s) && t.queue == s.queue && t.current == s.current && t.procs.Keys == s.procs.Keys
    requires forall p :: p in s.procs && p != s.current ==> t.procs[p].life == s.procs[p].life
    ensures Queue(t)
  {
    forall q ensures QueueOk(t, q) { assert QueueOk(s, q); }
  }

  lemma SomeChild(cptr: map<int, int>, optr: map<int, int>, yptr: map<int, int>, kids: map<int, seq<int>>, p: int)
    requires SpelledButFirst(cptr, optr, yptr, kids, p) && cptr[p] != NIL
    ensures kids[p] != []
  {
  }

  lemma FirstKnown(optr: map<int, int>, yptr: map<int, int>, l: seq<int>, cptr: map<int, int>, q: int, kids: map<int, seq<int>>, p: int)
    requires SpelledButFirst(cptr, optr, yptr, kids, p) && q in kids && q != p && l == kids[q]
    ensures q in cptr && cptr[q] == First(l) && (l != [] ==> l[0] != NIL)
  {
    assert ListOk(cptr, optr, yptr, l, q);
    assert l != [] ==> SibOk(optr, yptr, l, 0);
  }

  /** The scan's answer, from where the first zombie asked for stands. */
  lemma {:induction false} CollectableIs(s: State, l: seq<int>, asked: int, i: nat)
    requires Known(s, l) && i <= |l|
    requires forall j :: 0 <= j < i ==> !(Asks(asked, l[j]) && s.procs[l[j]].life == Zombie)
    requires i < |l| ==> Asks(asked, l[i]) && s.procs[l[i]].life == Zombie
    ensures Collectable(s, l, asked) == i
  {
    if l != [] && i > 0 {
      assert !(Asks(asked, l[0]) && s.procs[l[0]].life == Zombie);
      CollectableIs(s, l[1..], asked, i - 1);
    }
  }

  /** Looking a child up by its pid finds what a scan of the children would. */
  lemma ChildByPid(s: State, asked: int)
    requires Inv(s) && asked != 0 && Known(s, s.kids[s.current])
    ensures var l := s.kids[s.current];
      var i, mine := Collectable(s, l, asked), asked > IDLE && asked in s.procs && s.procs[asked].parent == s.current;
      && (mine <==> exists c :: c in l && Asks(asked, c))
      && (i < |l| <==> mine && s.procs[asked].life == Zombie) && (i < |l| ==> l[i] == asked)
  {
    var l := s.kids[s.current];
    assert KidsOk(s, s.current);
    assert asked in l ==> KidOk(s, s.current, asked);
    if asked > IDLE && asked in s.procs && s.procs[asked].parent == s.current {
      assert ParentOk(s, asked);
      var i :| 0 <= i < |l| && l[i] == asked;
      CollectableIs(s, l, asked, if s.procs[asked].life == Zombie then i else |l|);
    } else {
      CollectableIs(s, l, asked, |l|);
    }
  }

  lemma ExitSteps(s: State, code: int)
    requires Inv(s) && Enabled(s, DoExit(code))
    ensures s.current in s.procs && s.procs[s.current].parent in s.procs && Orphans(s) && Orphans(Die(s, code))
    ensures Step(s, DoExit(code)) == Schedule(AdoptAll(Die(s, code))) && Inv(Step(s, DoExit(code)))
  {
    ExitKeeps(s, code);
    hide Inv;
  }

  lemma NewIsNobodys(s: State, c: int)
    requires Tree(s) && c !in s.procs
    ensures forall q :: q in s.kids ==> c !in s.kids[q]
  {
    forall q | q in s.kids ensures c !in s.kids[q] {
      assert KidsOk(s, q);
      assert c in s.kids[q] ==> KidOk(s, q, c);
    }
  }

  /** A process that waits for a child is asleep, and not in the run queue. */
  lemma DieReady(s: State, code: int)
    requires Inv(s) && Enabled(s, DoExit(code))
    ensures s.procs[s.current].parent in s.procs && Dying(Die(s, code)) && Queue(s)
    ensures var p := s.procs[s.current].parent; p != s.current && s.procs[p].life != Zombie
  {
    ParentLives(s, s.current);
    ParentNotSelf(s, s.current);
    hide Tree, Rooted, Queue, Waits, Dead;
    DieKeeps(s, code);
  }

  lemma MoveReady(s: State)
    requires Dying(s) && Orphans(s) && s.kids[s.current] != []
    ensures Orphans(s) && Dying(AdoptOne(s)) && Orphans(AdoptOne(s)) && Families(s.kids) && Queue(s)
    ensures s.current != INIT && INIT in s.kids && INIT in s.procs && s.kids[s.current][0] in s.procs && s.procs[INIT].life != Zombie
  {
    hide Rooted, Queue, Waits;
    AdoptOneKeeps(s);
    OrphansKnown(AdoptOne(s));
    TreeIsFamilies(s);
  }

  lemma SpelledButAny(cptr: map<int, int>, optr: map<int, int>, yptr: map<int, int>, kids: map<int, seq<int>>, p: int)
    requires Spelled(cptr, optr, yptr, kids) && p in kids
    ensures SpelledButFirst(cptr, optr, yptr, kids, p) && p in cptr
  {
    var l := kids[p];
    assert ListOk(cptr, optr, yptr, l, p);
    if l != [] {
      assert SibOk(optr, yptr, l, 0);
      assert yptr[l[0] := NIL] == yptr;
    }
  }

  lemma HandedOver(cptr: map<int, int>, optr: map<int, int>, yptr: map<int, int>, kids: map<int, seq<int>>, p: int)
    requires SpelledButFirst(cptr, optr, yptr, kids, p) && cptr[p] == NIL
    ensures kids[p] == [] && Spelled(cptr, optr, yptr, kids)
  {
    var l := kids[p];
    assert l != [] ==> SibOk(optr, yptr[l[0] := NIL], l, 0);
  }

  /** A wait that collects a process is given the code this process gave to exit, however long ago. */
  lemma WaitGetsExitCode(s: State, code: int, ops: seq<Op>, u: State, asked: int, r: WaitResult)
    requires Inv(s) && Enabled(s, DoExit(code)) && Inv(Step(s, DoExit(code))) && Possible(Step(s, DoExit(code)), ops)
    requires PE.Uncollected(Step(s, DoExit(code)), ops, s.current)
    requires Answers(Run(Step(s, DoExit(code)), ops), u, asked, r) && r.Collected? && r.pid == s.current
    ensures r.code == code
  {
    PE.ExitCodeIsKept(s, code, ops);
  }
}
