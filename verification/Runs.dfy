/** Sets of units as sorted lists of separated runs: the form both allocators keep their free space in. */
module Runs {
  datatype Run = Run(at: int, len: int) {
    function End(): int { at + len }
  }

  /** Sorted, non-empty, and no two runs touch. */
  ghost predicate Canonical(s: seq<Run>) {
    && (forall i :: 0 <= i < |s| ==> s[i].len > 0)
    && (forall i, j :: 0 <= i < j < |s| ==> s[i].End() < s[j].at)
  }

  ghost predicate In(s: seq<Run>, x: int) {
    exists i :: 0 <= i < |s| && s[i].at <= x < s[i].End()
  }

  /** Apart from every run, possibly touching one on either side. */
  ghost predicate Free(s: seq<Run>, r: Run) {
    r.len > 0 && forall i :: 0 <= i < |s| ==> s[i].End() <= r.at || r.End() <= s[i].at
  }

  function Total(s: seq<Run>): int {
    if s == [] then 0 else s[0].len + Total(s[1..])
  }

  lemma {:induction false} TotalJoin(s: seq<Run>, t: seq<Run>)
    ensures Total(s + t) == Total(s) + Total(t)
  {
    if s == [] {
      assert s + t == t;
    } else {
      assert (s + t)[1..] == s[1..] + t;
      TotalJoin(s[1..], t);
    }
  }

  lemma TotalSplit(s: seq<Run>, k: nat)
    requires k <= |s|
    ensures Total(s) == Total(s[..k]) + Total(s[k..])
  {
    assert s == s[..k] + s[k..];
    TotalJoin(s[..k], s[k..]);
  }

  lemma TotalAt(s: seq<Run>, k: nat)
    requires k < |s|
    ensures Total(s) == Total(s[..k]) + s[k].len + Total(s[k + 1..])
  {
    TotalSplit(s, k);
    assert s[k..][1..] == s[k + 1..];
  }

  /** How many runs start below an address. */
  function Below(s: seq<Run>, x: int): (k: nat)
    ensures k <= |s|
  {
    if s == [] || s[0].at >= x then 0 else 1 + Below(s[1..], x)
  }

  lemma {:induction false} BelowDivides(s: seq<Run>, x: int)
    requires Canonical(s)
    ensures forall i :: 0 <= i < Below(s, x) ==> s[i].at < x
    ensures forall i :: Below(s, x) <= i < |s| ==> s[i].at >= x
  {
    if s != [] && s[0].at < x {
      BelowDivides(s[1..], x);
      forall i | 0 <= i < |s|
        ensures i < Below(s, x) ==> s[i].at < x
        ensures Below(s, x) <= i ==> s[i].at >= x
      {
        if i > 0 { assert s[i] == s[1..][i - 1]; }
      }
    }
  }

  lemma {:induction false} BelowIs(s: seq<Run>, x: int, k: nat)
    requires k <= |s|
    requires forall i :: 0 <= i < k ==> s[i].at < x
    requires k < |s| ==> s[k].at >= x
    ensures Below(s, x) == k
  {
    if k > 0 {
      assert s[0].at < x;
      BelowIs(s[1..], x, k - 1);
    }
  }

  predicate JoinsLow(s: seq<Run>, k: nat, r: Run) {
    0 < k <= |s| && s[k - 1].End() == r.at
  }

  predicate JoinsHigh(s: seq<Run>, k: nat, r: Run) {
    k < |s| && r.End() == s[k].at
  }

  function Lo(s: seq<Run>, k: nat, r: Run): nat { if JoinsLow(s, k, r) then k - 1 else k }

  function Hi(s: seq<Run>, k: nat, r: Run): nat { if JoinsHigh(s, k, r) then k + 1 else k }

  function Joined(s: seq<Run>, k: nat, r: Run): Run {
    var lo := if JoinsLow(s, k, r) then s[k - 1].len else 0;
    var hi := if JoinsHigh(s, k, r) then s[k].len else 0;
    Run(r.at - lo, lo + r.len + hi)
  }

  /** Put a run in before position k, joining it to the runs it touches there. */
  function PutAt(s: seq<Run>, k: nat, r: Run): seq<Run>
    requires k <= |s|
  {
    s[..Lo(s, k, r)] + [Joined(s, k, r)] + s[Hi(s, k, r)..]
  }

  /** Put a run back where its address belongs. */
  function Add(s: seq<Run>, r: Run): seq<Run> {
    PutAt(s, Below(s, r.at), r)
  }

  lemma FreePlace(s: seq<Run>, r: Run)
    requires Canonical(s) && Free(s, r)
    ensures forall i :: 0 <= i < Below(s, r.at) ==> s[i].End() <= r.at
    ensures forall i :: Below(s, r.at) <= i < |s| ==> r.End() <= s[i].at
  {
    BelowDivides(s, r.at);
  }

  lemma SpliceKeeps(s: seq<Run>, lo: nat, hi: nat, j: Run)
    requires Canonical(s) && lo <= hi <= |s| && j.len > 0
    requires 0 < lo ==> s[lo - 1].End() < j.at
    requires hi < |s| ==> j.End() < s[hi].at
    ensures Canonical(s[..lo] + [j] + s[hi..])
  {
    var t := s[..lo] + [j] + s[hi..];
    forall i | 0 <= i < |t|
      ensures t[i].len > 0
      ensures i < lo ==> t[i] == s[i] && t[i].End() < j.at
      ensures i > lo ==> t[i] == s[i - lo - 1 + hi] && j.End() < t[i].at
    {
    }
    forall i, m | 0 <= i < m < |t| ensures t[i].End() < t[m].at {
      if m < lo {
        assert s[i].End() < s[m].at;
      } else if i > lo {
        assert s[i - lo - 1 + hi].End() < s[m - lo - 1 + hi].at;
      }
    }
  }

  lemma SpliceCovers(s: seq<Run>, lo: nat, hi: nat, j: Run, x: int)
    requires lo <= hi <= |s|
    ensures In(s[..lo] + [j] + s[hi..], x) <==> In(s[..lo], x) || j.at <= x < j.End() || In(s[hi..], x)
  {
    InJoin(s[..lo], [j], x);
    InJoin(s[..lo] + [j], s[hi..], x);
    assert [j][0] == j;
  }

  lemma InJoin(s: seq<Run>, t: seq<Run>, x: int)
    ensures In(s + t, x) <==> In(s, x) || In(t, x)
  {
    if In(s, x) {
      var i :| 0 <= i < |s| && s[i].at <= x < s[i].End();
      assert (s + t)[i] == s[i];
    }
    if In(t, x) {
      var i :| 0 <= i < |t| && t[i].at <= x < t[i].End();
      assert (s + t)[|s| + i] == t[i];
    }
  }

  lemma JoinedApart(s: seq<Run>, r: Run)
    requires Canonical(s) && Free(s, r)
    ensures var k := Below(s, r.at); var m := Joined(s, k, r);
      && Lo(s, k, r) <= Hi(s, k, r) <= |s| && m.len > 0
      && (forall i :: 0 <= i < Lo(s, k, r) ==> s[i].End() < m.at)
      && (forall i :: Hi(s, k, r) <= i < |s| ==> m.End() < s[i].at)
  {
    FreePlace(s, r);
    var k := Below(s, r.at);
    hide Below;
    var m := Joined(s, k, r);
    forall i | 0 <= i < Lo(s, k, r) ensures s[i].End() < m.at {
      if i < k - 1 { assert s[i].End() < s[k - 1].at; }
    }
    forall i | Hi(s, k, r) <= i < |s| ensures m.End() < s[i].at {
      if i > k { assert s[k].End() < s[i].at; }
    }
  }

  lemma AddIsCanonical(s: seq<Run>, r: Run)
    requires Canonical(s) && Free(s, r)
    ensures Canonical(Add(s, r)) && Add(s, r) != []
  {
    JoinedApart(s, r);
    hide Canonical, Free, Below, Lo, Hi, Joined;
    var k := Below(s, r.at);
    SpliceKeeps(s, Lo(s, k, r), Hi(s, k, r), Joined(s, k, r));
  }

  lemma AddTotal(s: seq<Run>, r: Run)
    ensures Total(Add(s, r)) == Total(s) + r.len
  {
    var k := Below(s, r.at);
    var lo := Lo(s, k, r);
    var hi := Hi(s, k, r);
    TotalJoin(s[..lo] + [Joined(s, k, r)], s[hi..]);
    TotalJoin(s[..lo], [Joined(s, k, r)]);
    TotalSplit(s, k);
    if JoinsLow(s, k, r) {
      assert s[..k] == s[..k - 1] + [s[k - 1]];
      TotalJoin(s[..k - 1], [s[k - 1]]);
    }
    if JoinsHigh(s, k, r) {
      assert s[k..][1..] == s[k + 1..];
    }
  }

  /** The covered units grow by exactly the run put back. */
  lemma AddCovers(s: seq<Run>, r: Run, x: int)
    requires Canonical(s) && Free(s, r)
    ensures In(Add(s, r), x) <==> In(s, x) || r.at <= x < r.End()
  {
    var k := Below(s, r.at);
    assert r.len > 0 && (0 < k ==> s[k - 1].len > 0) && (k < |s| ==> s[k].len > 0);
    hide Canonical, Free, In;
    var lo := Lo(s, k, r);
    var hi := Hi(s, k, r);
    SpliceCovers(s, lo, hi, Joined(s, k, r), x);
    assert In(s, x) <==> In(s[..k], x) || In(s[k..], x) by {
      assert s == s[..k] + s[k..];
      InJoin(s[..k], s[k..], x);
    }
    if JoinsLow(s, k, r) { DropLast(s, k, x); }
    if JoinsHigh(s, k, r) { DropFirst(s, k, x); }
  }

  lemma DropLast(s: seq<Run>, k: nat, x: int)
    requires 0 < k <= |s|
    ensures In(s[..k], x) <==> In(s[..k - 1], x) || s[k - 1].at <= x < s[k - 1].End()
  {
    assert s[..k] == s[..k - 1] + [s[k - 1]];
    InJoin(s[..k - 1], [s[k - 1]], x);
    assert [s[k - 1]][0] == s[k - 1];
  }

  lemma DropFirst(s: seq<Run>, k: nat, x: int)
    requires k < |s|
    ensures In(s[k..], x) <==> s[k].at <= x < s[k].End() || In(s[k + 1..], x)
  {
    assert s[k..] == [s[k]] + s[k + 1..];
    InJoin([s[k]], s[k + 1..], x);
    assert [s[k]][0] == s[k];
  }

  lemma InTail(s: seq<Run>, x: int)
    requires Canonical(s) && s != []
    ensures In(s, x) <==> s[0].at <= x < s[0].End() || In(s[1..], x)
    ensures In(s[1..], x) ==> x > s[0].End()
    ensures Canonical(s[1..])
  {
    DropFirst(s, 0, x);
    assert s[0..] == s;
  }

  lemma TailsCoverTheSame(a: seq<Run>, b: seq<Run>)
    requires Canonical(a) && Canonical(b) && a != [] && b != [] && a[0] == b[0] && forall x :: In(a, x) <==> In(b, x)
    ensures Canonical(a[1..]) && Canonical(b[1..]) && forall x :: In(a[1..], x) <==> In(b[1..], x)
  {
    InTail(a, a[0].at);
    InTail(b, b[0].at);
    hide Canonical, In;
    forall x ensures In(a[1..], x) <==> In(b[1..], x) { InTail(a, x); InTail(b, x); }
  }

  lemma SameFirst(a: seq<Run>, b: seq<Run>)
    requires Canonical(a) && Canonical(b) && a != [] && forall x :: In(a, x) <==> In(b, x)
    ensures b != [] && a[0] == b[0]
  {
    assert In(a, a[0].at) && In(b, a[0].at);
    FirstCovered(a, b);
    FirstCovered(b, a);
    FirstEnd(a, b);
    FirstEnd(b, a);
  }

  /** A set of units has one canonical form. */
  lemma {:induction false} CanonicalIsUnique(a: seq<Run>, b: seq<Run>)
    requires Canonical(a) && Canonical(b) && forall x :: In(a, x) <==> In(b, x)
    ensures a == b
    decreases |a|
  {
    hide Canonical, In;
    if a == [] {
      if b != [] { SameFirst(b, a); }
    } else {
      SameFirst(a, b);
      TailsCoverTheSame(a, b);
      CanonicalIsUnique(a[1..], b[1..]);
      assert a == [a[0]] + a[1..] && b == [b[0]] + b[1..];
    }
  }

  lemma FirstCovered(a: seq<Run>, b: seq<Run>)
    requires Canonical(a) && Canonical(b) && a != [] && b != [] && forall x :: In(a, x) <==> In(b, x)
    ensures a[0].at >= b[0].at
  {
    assert In(a, a[0].at);
    var i :| 0 <= i < |b| && b[i].at <= a[0].at < b[i].End();
  }

  lemma FirstEnd(a: seq<Run>, b: seq<Run>)
    requires Canonical(a) && Canonical(b) && a != [] && b != [] && a[0].at == b[0].at && forall x :: In(a, x) <==> In(b, x)
    ensures a[0].len <= b[0].len
  {
    EndUncovered(b);
    CoveredByFirst(a, b[0].End());
  }

  lemma CoveredByFirst(s: seq<Run>, x: int)
    requires s != []
    ensures s[0].at <= x < s[0].End() ==> In(s, x)
  {
  }

  lemma EndUncovered(s: seq<Run>)
    requires Canonical(s) && s != []
    ensures !In(s, s[0].End())
  {
  }

  /** A run apart from every run covers no covered unit, and conversely. */
  lemma FreeIsUncovered(s: seq<Run>, r: Run)
    requires Canonical(s) && r.len > 0
    ensures Free(s, r) <==> forall x :: r.at <= x < r.End() ==> !In(s, x)
  {
    if !Free(s, r) {
      var i :| 0 <= i < |s| && !(s[i].End() <= r.at || r.End() <= s[i].at);
      var x := if s[i].at < r.at then r.at else s[i].at;
      assert In(s, x);
    }
  }

  lemma StaysFree(s: seq<Run>, q: Run, r: Run)
    requires Canonical(s) && Free(s, q) && Free(s, r) && (q.End() <= r.at || r.End() <= q.at)
    ensures Free(Add(s, q), r)
  {
    AddIsCanonical(s, q);
    FreeIsUncovered(s, r);
    forall x | r.at <= x < r.End() ensures !In(Add(s, q), x) { AddCovers(s, q, x); }
    FreeIsUncovered(Add(s, q), r);
  }

  /** Take the first n units of run k away. */
  function Take(s: seq<Run>, k: nat, n: int): seq<Run>
    requires k < |s|
  {
    if s[k].len == n then s[..k] + s[k + 1..] else s[k := Run(s[k].at + n, s[k].len - n)]
  }

  lemma TakeKeeps(s: seq<Run>, k: nat, n: int)
    requires Canonical(s) && k < |s| && 0 < n <= s[k].len
    ensures Canonical(Take(s, k, n)) && Free(Take(s, k, n), Run(s[k].at, n))
  {
    var t, gone := Take(s, k, n), s[k].len == n;
    forall i | 0 <= i < |t|
      ensures t[i].len > 0 && (if i < k then t[i].End() <= s[k].at else s[k].at + n <= t[i].at)
    {
      var m := if gone && i >= k then i + 1 else i;
      assert m != k ==> if m < k then s[m].End() < s[k].at else s[k].End() < s[m].at;
    }
    forall i, j | 0 <= i < j < |t| ensures t[i].End() < t[j].at {
      assert s[if gone && i >= k then i + 1 else i].End() < s[if gone && j >= k then j + 1 else j].at;
    }
  }

  lemma TakeTotal(s: seq<Run>, k: nat, n: int)
    requires k < |s|
    ensures Total(Take(s, k, n)) == Total(s) - n
  {
    TotalAt(s, k);
    if s[k].len == n {
      TotalJoin(s[..k], s[k + 1..]);
    } else {
      var t := Take(s, k, n);
      TotalAt(t, k);
      assert t[..k] == s[..k] && t[k + 1..] == s[k + 1..];
    }
  }

  lemma TakenTouches(s: seq<Run>, k: nat, n: int)
    requires Canonical(s) && k < |s| && 0 < n <= s[k].len
    ensures var t, r := Take(s, k, n), Run(s[k].at, n);
      !JoinsLow(t, k, r) && (JoinsHigh(t, k, r) <==> n < s[k].len) && Joined(t, k, r) == s[k]
  {
  }

  /** Putting a taken run back restores the list. */
  lemma AddUndoesTake(s: seq<Run>, k: nat, n: int)
    requires Canonical(s) && k < |s| && 0 < n <= s[k].len
    ensures Add(Take(s, k, n), Run(s[k].at, n)) == s
  {
    var t, r := Take(s, k, n), Run(s[k].at, n);
    BelowIs(t, r.at, k);
    TakenTouches(s, k, n);
    hide Canonical, Below, Joined, JoinsLow, JoinsHigh;
    var h := Hi(t, k, r);
    assert Add(t, r) == t[..k] + [s[k]] + t[h..];
    assert t[..k] == s[..k] && t[h..] == s[k + 1..];
  }

  lemma TakeCovers(s: seq<Run>, k: nat, n: int, x: int)
    requires Canonical(s) && k < |s| && 0 < n <= s[k].len
    ensures In(Take(s, k, n), x) <==> In(s, x) && !(s[k].at <= x < s[k].at + n)
  {
    hide Add;
    TakeKeeps(s, k, n);
    AddUndoesTake(s, k, n);
    AddCovers(Take(s, k, n), Run(s[k].at, n), x);
    FreeIsUncovered(Take(s, k, n), Run(s[k].at, n));
  }

  /** Every block is outside the list and outside every other block. */
  ghost predicate Apart(s: seq<Run>, rs: seq<Run>) {
    && (forall i :: 0 <= i < |rs| ==> Free(s, rs[i]))
    && (forall i, j :: 0 <= i < j < |rs| ==> rs[i].End() <= rs[j].at || rs[j].End() <= rs[i].at)
  }

  lemma UncoveredIsApart(rs: seq<Run>, r: Run, i: nat, t: seq<Run>)
    requires i < |rs| && r.len > 0 && Apart(t, rs) && forall x :: r.at <= x < r.End() ==> !In(rs, x)
    ensures r.End() <= rs[i].at || rs[i].End() <= r.at
  {
    var x := if rs[i].at < r.at then r.at else rs[i].at;
    assert Free(t, rs[i]);
    CoveredAt(rs, i, x);
    if r.at <= x < r.End() { assert !In(rs, x); }
  }

  lemma ApartMore(t: seq<Run>, r: Run, rs: seq<Run>)
    requires Free(t, r) && Apart(t, rs) && forall i :: 0 <= i < |rs| ==> r.End() <= rs[i].at || rs[i].End() <= r.at
    ensures Apart(t, [r] + rs)
  {
    var q := [r] + rs;
    forall i | 0 <= i < |q| ensures Free(t, q[i]) { if i > 0 { assert q[i] == rs[i - 1]; } }
    forall i, j | 0 <= i < j < |q| ensures q[i].End() <= q[j].at || q[j].End() <= q[i].at {
      assert q[j] == rs[j - 1];
      if i > 0 { assert q[i] == rs[i - 1]; }
    }
  }

  lemma OneIn(r: Run, x: int)
    ensures In([r], x) <==> r.at <= x < r.End()
  {
    assert [r][0] == r;
  }

  lemma CoveredAt(s: seq<Run>, k: nat, x: int)
    requires k < |s|
    ensures s[k].at <= x < s[k].End() ==> In(s, x)
  {
  }

  function Without<T>(s: seq<T>, i: nat): seq<T>
    requires i < |s|
  {
    s[..i] + s[i + 1..]
  }
}
