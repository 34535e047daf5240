/** Kernel semaphores: a value, a queue of sleepers, and an up that hands its unit to the first sleeper. */
module Semaphores {
  datatype Option<+T> = None | Some(value: T)

  type Pid = nat

  datatype Sem = Sem(value: nat, queue: seq<Pid>)

  /** The semaphore after an up, and the process it wakes. */
  function Up(s: Sem): (Sem, Option<Pid>) {
    if s.queue == [] then (s.(value := s.value + 1), None) else (s.(queue := s.queue[1..]), Some(s.queue[0]))
  }

  /** The semaphore after a down by p, and whether p went through without sleeping. */
  function Down(s: Sem, p: Pid): (Sem, bool) {
    if s.value > 0 then (s.(value := s.value - 1), true) else (s.(queue := s.queue + [p]), false)
  }

  /** Nobody sleeps on a positive semaphore, and nobody sleeps twice. */
  ghost predicate Sound(s: Sem) {
    (s.value > 0 ==> s.queue == []) && forall i, j :: 0 <= i < j < |s.queue| ==> s.queue[i] != s.queue[j]
  }

  // ----- Whole runs -----

  /** Units at hand less processes waiting for one. */
  function Balance(s: Sem): int { s.value - |s.queue| }

  lemma UpBalances(s: Sem)
    requires Sound(s)
    ensures Sound(Up(s).0) && Balance(Up(s).0) == Balance(s) + 1
    ensures Up(s).1.Some? <==> s.value == 0 && s.queue != []
  {
  }

  /** A down is made by a process that is not asleep here. */
  lemma DownBalances(s: Sem, p: Pid)
    requires Sound(s) && p !in s.queue
    ensures Sound(Down(s, p).0) && Balance(Down(s, p).0) == Balance(s) - 1
    ensures Down(s, p).1 <==> Balance(s) > 0
  {
  }

  datatype Act = DoUp | DoDown(p: Pid)

  function Perform(s: Sem, a: Act): Sem {
    if a.DoUp? then Up(s).0 else Down(s, a.p).0
  }

  /** Only processes that are awake act. */
  ghost predicate Possible(s: Sem, acts: seq<Act>)
    decreases |acts|
  {
    acts == [] || ((acts[0].DoDown? ==> acts[0].p !in s.queue) && Possible(Perform(s, acts[0]), acts[1..]))
  }

  function After(s: Sem, acts: seq<Act>): Sem
    decreases |acts|
  {
    if acts == [] then s else After(Perform(s, acts[0]), acts[1..])
  }

  /** Who went to sleep, in that order. */
  function Slept(s: Sem, acts: seq<Act>): seq<Pid>
    decreases |acts|
  {
    if acts == [] then []
    else (if acts[0].DoDown? && !Down(s, acts[0].p).1 then [acts[0].p] else []) + Slept(Perform(s, acts[0]), acts[1..])
  }

  /** Who was woken, in that order. */
  function Woken(s: Sem, acts: seq<Act>): seq<Pid>
    decreases |acts|
  {
    if acts == [] then []
    else (if acts[0].DoUp? && Up(s).1.Some? then [Up(s).1.value] else []) + Woken(Perform(s, acts[0]), acts[1..])
  }

  function Ups(acts: seq<Act>): nat {
    if acts == [] then 0 else (if acts[0].DoUp? then 1 else 0) + Ups(acts[1..])
  }

  lemma Shifted(first: seq<Pid>, q: seq<Pid>, now: seq<Pid>, rest: seq<Pid>, woken: seq<Pid>, left: seq<Pid>)
    requires (q + now) + rest == woken + left
    ensures (first + q) + (now + rest) == (first + woken) + left
  {
    assert (first + q) + (now + rest) == first + ((q + now) + rest);
  }

  /** First come, first served: those woken are those who went to sleep first, and those still asleep are the rest. */
  lemma {:induction false} WokenInOrder(s: Sem, acts: seq<Act>)
    ensures s.queue + Slept(s, acts) == Woken(s, acts) + After(s, acts).queue
    decreases |acts|
  {
    if acts != [] {
      var t, more := Perform(s, acts[0]), acts[1..];
      var now := if acts[0].DoDown? && !Down(s, acts[0].p).1 then [acts[0].p] else [];
      var first := if acts[0].DoUp? && Up(s).1.Some? then [Up(s).1.value] else [];
      var q := if first == [] then s.queue else s.queue[1..];
      assert s.queue == first + q && t.queue == q + now;
      WokenInOrder(t, more);
      Shifted(first, q, now, Slept(t, more), Woken(t, more), After(t, more).queue);
    }
  }

  /** No unit is lost or made: each up adds one, each down takes one, now or when it is served. */
  lemma {:induction false} UnitsAddUp(s: Sem, acts: seq<Act>)
    requires Sound(s) && Possible(s, acts)
    ensures Sound(After(s, acts)) && Balance(After(s, acts)) == Balance(s) + Ups(acts) - (|acts| - Ups(acts))
    decreases |acts|
  {
    if acts != [] {
      if acts[0].DoUp? { UpBalances(s); } else { DownBalances(s, acts[0].p); }
      UnitsAddUp(Perform(s, acts[0]), acts[1..]);
    }
  }

  class Semaphore {
    var value: nat
    var queue: seq<Pid>

    ghost function Now(): Sem
      reads this
    {
      Sem(value, queue)
    }

    constructor (value: nat)
      ensures Now() == Sem(value, [])
    {
      this.value, queue := value, [];
    }

    method Up_() returns (woken: Option<Pid>)
      modifies this
      ensures (Now(), woken) == Up(old(Now()))
      ensures Sound(old(Now())) ==> Sound(Now()) && Balance(Now()) == Balance(old(Now())) + 1
    {
      ghost var s := Now();
      if Sound(s) { UpBalances(s); }
      if queue == [] {
        value := value + 1;
        woken := None;
      } else {
        woken := Some(queue[0]);
        queue := queue[1..];
      }
    }

    method Down_(p: Pid) returns (through: bool)
      modifies this
      ensures (Now(), through) == Down(old(Now()), p)
      ensures Sound(old(Now())) && p !in old(queue) ==> Sound(Now()) && Balance(Now()) == Balance(old(Now())) - 1
    {
      ghost var s := Now();
      if Sound(s) && p !in queue { DownBalances(s, p); }
      if value > 0 {
        value := value - 1;
        through := true;
      } else {
        queue := queue + [p];
        through := false;
      }
    }

    method TryDown() returns (ok: bool)
      modifies this
      ensures ok == (old(value) > 0)
      ensures Now() == if ok then old(Now()).(value := old(value) - 1) else old(Now())
      ensures Sound(old(Now())) ==> Sound(Now())
    {
      ok := value > 0;
      if ok { value := value - 1; }
    }

    /** A run on the semaphore itself: who slept and who was woken, in order. */
    method Run(acts: seq<Act>) returns (slept: seq<Pid>, woken: seq<Pid>)
      modifies this
      ensures Now() == After(old(Now()), acts) && slept == Slept(old(Now()), acts) && woken == Woken(old(Now()), acts)
      ensures old(queue) + slept == woken + queue
    {
      ghost var start := Now();
      slept, woken := [], [];
      var i := 0;
      while i < |acts|
        invariant 0 <= i <= |acts| && After(start, acts) == After(Now(), acts[i..])
        invariant Slept(start, acts) == slept + Slept(Now(), acts[i..])
        invariant Woken(start, acts) == woken + Woken(Now(), acts[i..])
      {
        assert acts[i..][1..] == acts[i + 1..];
        match acts[i] {
          case DoUp =>
            var w := Up_();
            if w.Some? { woken := woken + [w.value]; }
          case DoDown(p) =>
            var through := Down_(p);
            if !through { slept := slept + [p]; }
        }
        i := i + 1;
      }
      WokenInOrder(start, acts);
    }
  }
}
