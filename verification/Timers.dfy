/** The timer list: each timer holds the ticks after the one before it, in 32-bit words. */
module Timers {
  /** A timer is named by the process it wakes. */
  datatype Timer = Timer(id: int, expires: int)

  const WORD := 0x1_0000_0000

  // ---- What the list means ----

  /** The ticks left for every timer, counting from base. */
  ghost function Deadlines(s: seq<Timer>, base: int): map<int, int> {
    if s == [] then map[]
    else Deadlines(s[1..], base + s[0].expires)[s[0].id := base + s[0].expires]
  }

  function Sum(s: seq<Timer>): int {
    if s == [] then 0 else s[0].expires + Sum(s[1..])
  }

  ghost predicate Known(s: seq<Timer>, id: int) {
    exists i :: 0 <= i < |s| && s[i].id == id
  }

  ghost predicate Distinct(s: seq<Timer>) {
    forall i, j :: 0 <= i < j < |s| ==> s[i].id != s[j].id
  }

  /** Between ticks: distinct timers, the first still has ticks to go, and no deadline leaves 32 bits. */
  ghost predicate Valid(s: seq<Timer>) {
    && Distinct(s) && (forall i :: 0 <= i < |s| ==> s[i].expires >= 0)
    && (s != [] ==> s[0].expires > 0) && Sum(s) < WORD
  }

  // ---- The operations on values ----

  function Add(s: seq<Timer>, t: Timer): seq<Timer> {
    if s == [] then [t]
    else if t.expires < s[0].expires then [t, s[0].(expires := s[0].expires - t.expires)] + s[1..]
    else [s[0]] + Add(s[1..], t.(expires := t.expires - s[0].expires))
  }

  function Del(s: seq<Timer>, i: nat): seq<Timer>
    requires i < |s|
  {
    if i + 1 < |s| then s[..i] + [s[i + 1].(expires := s[i + 1].expires + s[i].expires)] + s[i + 2..]
    else s[..i]
  }

  function PopZeros(s: seq<Timer>): seq<Timer> {
    if s != [] && s[0].expires == 0 then PopZeros(s[1..]) else s
  }

  function Zeros(s: seq<Timer>): seq<int> {
    if s != [] && s[0].expires == 0 then [s[0].id] + Zeros(s[1..]) else []
  }

  function Ticked(s: seq<Timer>): seq<Timer> {
    if s == [] then [] else [s[0].(expires := s[0].expires - 1)] + s[1..]
  }

  // ---- Adding ----

  lemma {:induction false} KeysAreKnown(s: seq<Timer>, base: int, id: int)
    ensures id in Deadlines(s, base) <==> Known(s, id)
  {
    if s != [] {
      KeysAreKnown(s[1..], base + s[0].expires, id);
      if Known(s[1..], id) {
        var i :| 0 <= i < |s[1..]| && s[1..][i].id == id;
        assert s[i + 1].id == id;
      }
      if Known(s, id) && s[0].id != id {
        var i :| 0 <= i < |s| && s[i].id == id;
        assert s[1..][i - 1].id == id;
      }
    }
  }

  /** Adding a timer sets its deadline and moves no other. */
  lemma {:induction false} AddRefines(s: seq<Timer>, t: Timer, base: int)
    requires !Known(s, t.id)
    ensures Deadlines(Add(s, t), base) == Deadlines(s, base)[t.id := base + t.expires]
  {
    if s == [] {
    } else if t.expires < s[0].expires {
      var a := Add(s, t);
      assert a[1..][1..] == s[1..];
      assert s[0].id != t.id;
    } else {
      var u := t.(expires := t.expires - s[0].expires);
      assert !Known(s[1..], t.id) by { TailKnown(s, t.id); }
      AddRefines(s[1..], u, base + s[0].expires);
      assert Add(s, t)[1..] == Add(s[1..], u);
      assert s[0].id != t.id;
    }
  }

  lemma TailKnown(s: seq<Timer>, id: int)
    requires s != []
    ensures Known(s[1..], id) ==> Known(s, id)
  {
    if Known(s[1..], id) {
      var i :| 0 <= i < |s[1..]| && s[1..][i].id == id;
      assert s[i + 1].id == id;
    }
  }

  lemma {:induction false} AddKeeps(s: seq<Timer>, t: Timer)
    requires Distinct(s) && !Known(s, t.id) && t.expires >= 0 && forall i :: 0 <= i < |s| ==> s[i].expires >= 0
    ensures Distinct(Add(s, t)) && forall i :: 0 <= i < |Add(s, t)| ==> Add(s, t)[i].expires >= 0
    ensures forall id :: Known(Add(s, t), id) <==> Known(s, id) || id == t.id
    ensures Sum(Add(s, t)) == if t.expires > Sum(s) then t.expires else Sum(s)
  {
    var a := Add(s, t);
    forall id ensures Known(a, id) <==> Known(s, id) || id == t.id {
      KeysAreKnown(s, 0, id);
      KeysAreKnown(a, 0, id);
      AddRefines(s, t, 0);
    }
    if s != [] {
      assert s[0].id != t.id;
      if t.expires < s[0].expires {
        assert a[1..][1..] == s[1..] && a[0] == t;
        SumAtLeast(s[1..]);
        forall i, j | 0 <= i < j < |a| ensures a[i].id != a[j].id {
          assert a[j].id == s[j - 1].id;
          if i > 0 { assert a[i].id == s[i - 1].id; }
        }
      } else {
        var u := t.(expires := t.expires - s[0].expires);
        TailKnown(s, t.id);
        AddKeeps(s[1..], u);
        assert a[1..] == Add(s[1..], u);
        forall j | 0 < j < |a| ensures a[j].id != s[0].id {
          assert Known(a[1..], a[j].id) by { assert a[1..][j - 1] == a[j]; }
          HeadUnknown(s);
        }
      }
    }
  }

  lemma {:induction false} SumAtLeast(s: seq<Timer>)
    requires forall i :: 0 <= i < |s| ==> s[i].expires >= 0
    ensures Sum(s) >= 0 && forall i :: 0 <= i < |s| ==> s[i].expires <= Sum(s)
  {
    if s != [] {
      SumAtLeast(s[1..]);
      forall i | 0 <= i < |s| ensures s[i].expires <= Sum(s) { if i > 0 { assert s[i] == s[1..][i - 1]; } }
    }
  }

  // ---- Deleting ----

  lemma HeadUnknown(s: seq<Timer>)
    requires Distinct(s) && s != []
    ensures !Known(s[1..], s[0].id)
  {
    forall i | 0 <= i < |s[1..]| ensures s[1..][i].id != s[0].id { assert s[1..][i] == s[i + 1]; }
  }

  lemma DelTail(s: seq<Timer>, i: nat)
    requires i < |s|
    ensures if i == 0 then Del(s, i) == if |s| == 1 then [] else [s[1].(expires := s[1].expires + s[0].expires)] + s[1..][1..]
            else Del(s, i) == [s[0]] + Del(s[1..], i - 1)
  {
    if i > 0 { assert s[1..][i - 1] == s[i] && s[1..][..i - 1] == s[1..i]; }
  }

  lemma DelFirstRefines(s: seq<Timer>, base: int)
    requires Distinct(s) && s != []
    ensures Deadlines(Del(s, 0), base) == Deadlines(s, base) - {s[0].id}
  {
    HeadUnknown(s);
    KeysAreKnown(s[1..], base + s[0].expires, s[0].id);
    DelTail(s, 0);
    hide Del, Distinct;
    if |s| > 1 {
      var d := [s[1].(expires := s[1].expires + s[0].expires)] + s[1..][1..];
      assert d[1..] == s[1..][1..];
      assert Deadlines(d, base) == Deadlines(s[1..], base + s[0].expires);
    }
  }

  /** Deleting a timer moves no other deadline. */
  lemma {:induction false} DelRefines(s: seq<Timer>, i: nat, base: int)
    requires Distinct(s) && i < |s|
    ensures Deadlines(Del(s, i), base) == Deadlines(s, base) - {s[i].id}
    decreases i
  {
    DelTail(s, i);
    hide Del;
    HeadUnknown(s);
    if i == 0 {
      DelFirstRefines(s, base);
    } else {
      assert s[1..][i - 1] == s[i];
      assert s[0].id != s[i].id;
      DelRefines(s[1..], i - 1, base + s[0].expires);
      hide Distinct;
      assert Del(s, i)[1..] == Del(s[1..], i - 1) && Del(s, i)[0] == s[0];
    }
  }

  lemma {:induction false} DelSum(s: seq<Timer>, i: nat)
    requires i < |s| && forall j :: 0 <= j < |s| ==> s[j].expires >= 0
    ensures Sum(Del(s, i)) <= Sum(s)
    decreases i
  {
    DelTail(s, i);
    SumAtLeast(s);
    hide Del;
    if i == 0 {
      if |s| > 1 {
        assert ([s[1].(expires := s[1].expires + s[0].expires)] + s[1..][1..])[1..] == s[1..][1..];
      }
    } else {
      DelSum(s[1..], i - 1);
      assert Del(s, i)[1..] == Del(s[1..], i - 1);
    }
  }

  lemma PairFits(s: seq<Timer>, i: nat)
    requires i + 1 < |s| && forall j :: 0 <= j < |s| ==> s[j].expires >= 0
    ensures s[i].expires + s[i + 1].expires <= Sum(s)
    decreases i
  {
    SumAtLeast(s[1..]);
    if i == 0 {
      SumAtLeast(s[1..][1..]);
    } else {
      PairFits(s[1..], i - 1);
    }
  }

  lemma DelKeeps(s: seq<Timer>, i: nat)
    requires Valid(s) && i < |s|
    ensures Valid(Del(s, i))
    ensures i + 1 < |s| ==> s[i].expires + s[i + 1].expires < WORD
  {
    DelSum(s, i);
    if i + 1 < |s| { PairFits(s, i); }
    var d := Del(s, i);
    forall j | 0 <= j < |d|
      ensures d[j].id == s[if j < i then j else j + 1].id && d[j].expires >= 0 && (j == 0 ==> d[0].expires > 0)
    {
    }
  }

  // ---- Ticking ----

  lemma {:induction false} Shift(s: seq<Timer>, base: int, id: int)
    requires id in Deadlines(s, base)
    ensures id in Deadlines(s, 0) && Deadlines(s, base)[id] == Deadlines(s, 0)[id] + base
  {
    if s[0].id != id {
      Shift(s[1..], base + s[0].expires, id);
      KeysAreKnown(s[1..], s[0].expires, id);
      KeysAreKnown(s[1..], 0, id);
      Shift(s[1..], s[0].expires, id);
    }
  }

  /** Dropping the timers that have run out leaves the others where they were. */
  lemma {:induction false} PopRefines(s: seq<Timer>)
    requires Distinct(s) && forall i :: 0 <= i < |s| ==> s[i].expires >= 0
    ensures var d := Deadlines(s, 0);
      && Deadlines(PopZeros(s), 0) == (map id | id in d && d[id] > 0 :: d[id])
      && (forall id :: id in Zeros(s) <==> id in d && d[id] == 0)
      && (forall id :: id in d ==> d[id] >= 0)
  {
    if s != [] {
      HeadUnknown(s);
      KeysAreKnown(s[1..], s[0].expires, s[0].id);
      if s[0].expires == 0 {
        PopRefines(s[1..]);
        assert Deadlines(s, 0) == Deadlines(s[1..], 0)[s[0].id := 0];
      } else {
        LaterIsLater(s[1..], s[0].expires);
        var d := Deadlines(s, 0);
        assert forall id :: id in d ==> d[id] > 0;
        assert (map id | id in d && d[id] > 0 :: d[id]) == d;
      }
    }
  }

  lemma {:induction false} LaterIsLater(s: seq<Timer>, base: int)
    requires forall i :: 0 <= i < |s| ==> s[i].expires >= 0
    ensures forall id :: id in Deadlines(s, base) ==> Deadlines(s, base)[id] >= base
  {
    if s != [] { LaterIsLater(s[1..], base + s[0].expires); }
  }

  lemma {:induction false} PopKeeps(s: seq<Timer>)
    requires Distinct(s) && (forall i :: 0 <= i < |s| ==> s[i].expires >= 0) && Sum(s) < WORD
    ensures Valid(PopZeros(s))
  {
    if s != [] && s[0].expires == 0 {
      PopKeeps(s[1..]);
    }
  }

  /** A tick brings every deadline one nearer, ends exactly those that were one away, and wakes their owners. */
  lemma TickRefines(s: seq<Timer>)
    requires Valid(s)
    ensures var d, t := Deadlines(s, 0), Ticked(s);
      && Valid(PopZeros(t))
      && Deadlines(PopZeros(t), 0) == (map id | id in d && d[id] > 1 :: d[id] - 1)
      && (forall id :: id in Zeros(t) <==> id in d && d[id] == 1)
      && (forall id :: id in d ==> d[id] >= 1)
  {
    if s != [] {
      var d, t := Deadlines(s, 0), Ticked(s);
      assert t[1..] == s[1..];
      assert Deadlines(t, 0) == Deadlines(s, -1);
      forall i | 0 <= i < |t| ensures t[i].id == s[i].id && t[i].expires >= 0 { }
      PopKeeps(t);
      PopRefines(t);
      forall id ensures id in Deadlines(t, 0) <==> id in d { KeysAreKnown(s, -1, id); KeysAreKnown(s, 0, id); }
      forall id | id in d ensures Deadlines(t, 0)[id] == d[id] - 1 { Shift(s, -1, id); }
    }
  }

  // ---- The kernel's list ----

  class TimerList {
    var list: seq<Timer>

    ghost predicate Ok()
      reads this
    {
      Valid(list)
    }

    constructor ()
      ensures Ok() && list == []
    {
      list := [];
    }

    /** Walk past the timers that end no later, turning the ticks left into a delta. */
    method AddTimer(t: Timer)
      requires Ok() && 0 < t.expires < WORD && !Known(list, t.id)
      modifies this
      ensures Ok() && list == Add(old(list), t)
      ensures Deadlines(list, 0) == Deadlines(old(list), 0)[t.id := t.expires]
    {
      ghost var s := list;
      AddKeeps(s, t);
      AddRefines(s, t, 0);
      AddHead(s, t);
      hide Valid, Distinct, Known, Deadlines, Add;
      ghost var goal := Add(s, t);
      Place(t, goal);
      ValidIf(list);
    }

    method Place(t: Timer, ghost goal: seq<Timer>)
      requires goal == Add(list, t)
      modifies this
      ensures list == goal
    {
      hide Add;
      var timer := t;
      var i := 0;
      while i < |list|
        invariant 0 <= i <= |list| && list == old(list)
        invariant AddsTo(list, i, timer, goal)
      {
        AddStep(list, i, timer, goal);
        if timer.expires < list[i].expires {
          list := list[i := list[i].(expires := list[i].expires - timer.expires)];
          break;
        }
        timer := timer.(expires := timer.expires - list[i].expires);
        i := i + 1;
      }
      AddEnd(old(list), timer, goal);
      list := list[..i] + [timer] + list[i..];
    }

    /** Unlink the timer at position i, giving its ticks to the next. */
    method DelTimer(i: nat)
      requires Ok() && i < |list|
      modifies this
      ensures Ok() && list == Del(old(list), i)
      ensures Deadlines(list, 0) == Deadlines(old(list), 0) - {old(list)[i].id}
    {
      DelKeeps(list, i);
      DelRefines(list, i, 0);
      ghost var d := Del(list, i);
      if list[i].expires != 0 {
        if i + 1 < |list| {
          assert list[i + 1].expires + list[i].expires < WORD;
          list := list[i + 1 := list[i + 1].(expires := list[i + 1].expires + list[i].expires)];
        }
      }
      list := list[..i] + list[i + 1..];
      assert list == d;
    }

    /** One tick: the processes whose time has come, in order. */
    method RunTimerList() returns (woken: seq<int>)
      requires Ok()
      modifies this
      ensures Ok() && list == PopZeros(Ticked(old(list))) && woken == Zeros(Ticked(old(list)))
      ensures forall id :: id in woken <==> id in Deadlines(old(list), 0) && Deadlines(old(list), 0)[id] == 1
      ensures Deadlines(list, 0) ==
        (map id | id in Deadlines(old(list), 0) && Deadlines(old(list), 0)[id] > 1 :: Deadlines(old(list), 0)[id] - 1)
    {
      TickRefines(list);
      ghost var s := Ticked(list);
      woken := [];
      if list != [] {
        assert list[0].expires != 0;
        list := list[0 := list[0].(expires := list[0].expires - 1)];
        assert list == s;
        while list != [] && list[0].expires == 0
          invariant PopZeros(list) == PopZeros(s) && woken + Zeros(list) == Zeros(s)
          decreases |list|
        {
          woken := woken + [list[0].id];
          list := list[1..];
        }
      }
    }
  }

  lemma ValidIf(s: seq<Timer>)
    requires Distinct(s) && (forall i :: 0 <= i < |s| ==> s[i].expires >= 0) && (s != [] ==> s[0].expires > 0) && Sum(s) < WORD
    ensures Valid(s)
  {
  }

  lemma AddHead(s: seq<Timer>, t: Timer)
    requires t.expires > 0 && (s != [] ==> s[0].expires > 0)
    ensures Add(s, t) != [] && Add(s, t)[0].expires > 0
  {
  }

  /** Adding t from position i on gives the list wanted. */
  ghost predicate AddsTo(s: seq<Timer>, i: int, t: Timer, goal: seq<Timer>) {
    0 <= i <= |s| && goal == s[..i] + Add(s[i..], t)
  }

  lemma AddEnd(s: seq<Timer>, t: Timer, goal: seq<Timer>)
    ensures AddsTo(s, |s|, t, goal) ==> goal == s[..|s|] + [t] + s[|s|..]
  {
  }

  lemma AddStep(s: seq<Timer>, i: nat, t: Timer, goal: seq<Timer>)
    requires i < |s| && AddsTo(s, i, t, goal)
    ensures t.expires < s[i].expires ==>
      var u := s[i := s[i].(expires := s[i].expires - t.expires)]; goal == u[..i] + [t] + u[i..]
    ensures t.expires >= s[i].expires ==> AddsTo(s, i + 1, t.(expires := t.expires - s[i].expires), goal)
  {
    assert s[i..][1..] == s[i + 1..];
  }
}
