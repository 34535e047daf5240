/** Process numbers: the allocator remembers a gap that holds no listed pid. */
module PidAlloc {
  const MAX_PROCESS := 4096
  const MAX_PID := MAX_PROCESS * 2

  /** No listed pid lies strictly between the last one given and the next known one. */
  ghost predicate GapFree(pids: seq<int>, last: int, safe: int) {
    forall i :: 0 <= i < |pids| ==> !(last < pids[i] < safe)
  }

  /** How many increments a counter at last is from f, when MAX_PID turns back to 1. */
  function Distance(last: int, f: int): int {
    if last <= f then f - last else f - last + MAX_PID - 1
  }

  function Range(a: int, b: int): set<int>
    decreases b - a
  {
    if a >= b then {} else {a} + Range(a + 1, b)
  }

  lemma {:induction false} RangeHolds(a: int, b: int)
    requires a <= b
    ensures |Range(a, b)| == b - a && forall x :: x in Range(a, b) <==> a <= x < b
    decreases b - a
  {
    if a < b { RangeHolds(a + 1, b); }
  }

  lemma {:induction false} SetOfSeq(s: seq<int>)
    ensures |set x | x in s| <= |s|
  {
    if s != [] {
      SetOfSeq(s[1..]);
      assert (set x | x in s) == (set x | x in s[1..]) + {s[0]};
    }
  }

  /** Some pid is free: there are more pids than processes. */
  lemma FreePidExists(pids: seq<int>)
    requires |pids| < MAX_PROCESS
    ensures exists f :: 1 <= f < MAX_PID && f !in pids
  {
    var all, used := Range(1, MAX_PID), set p | p in pids;
    RangeHolds(1, MAX_PID);
    SetOfSeq(pids);
    SubsetSize(all, used);
    assert (forall f :: 1 <= f < MAX_PID ==> f in pids) ==> all <= used;
  }

  lemma SubsetSize(a: set<int>, b: set<int>)
    ensures a <= b ==> |a| <= |b|
  {
    assert a <= b ==> b == a + (b - a);
  }

  /** The pids a counter at `last` goes through before it comes to pid. */
  predicate Passed(last: int, pid: int, x: int) {
    1 <= x < MAX_PID && if last < pid then last < x < pid else x > last || x < pid
  }

  /** The pids a scan that began at `from` has found taken. */
  predicate Met(from: int, wraps: int, last: int, x: int) {
    1 <= x < MAX_PID && if wraps == 1 then x >= from || x < last else from <= x < last
  }

  /** The list without a pid. */
  function Without(s: seq<int>, p: int): seq<int> {
    if s == [] then [] else if s[0] == p then s[1..] else [s[0]] + Without(s[1..], p)
  }

  ghost predicate Distinct(s: seq<int>) {
    forall i, j :: 0 <= i < j < |s| ==> s[i] != s[j]
  }

  lemma {:induction false} WithoutIs(s: seq<int>, p: int)
    requires Distinct(s)
    ensures Distinct(Without(s, p)) && forall x :: x in Without(s, p) <==> x in s && x != p
  {
    if s != [] {
      WithoutIs(s[1..], p);
      assert forall x :: x in s <==> x == s[0] || x in s[1..];
      assert s[0] !in s[1..];
    }
  }

  class PidAllocator {
    var pids: seq<int>
    var lastPid: int
    var nextSafe: int

    ghost predicate Valid()
      reads this
    {
      && (forall i :: 0 <= i < |pids| ==> 1 <= pids[i] < MAX_PID)
      && 1 <= lastPid <= MAX_PID && 1 <= nextSafe <= MAX_PID && GapFree(pids, lastPid, nextSafe)
    }

    constructor ()
      ensures Valid() && pids == [] && lastPid == MAX_PID
    {
      pids, lastPid, nextSafe := [], MAX_PID, MAX_PID;
    }

    /**
     * The first pid after the last one given, round the end if need be, that no listed process has. The search
     * starts over only after passing a taken pid, so it ends, and it passes MAX_PID at most once.
     */
    method GetPid() returns (pid: int, ghost wraps: int)
      requires Valid() && |pids| < MAX_PROCESS
      modifies this`lastPid, this`nextSafe
      ensures Valid() && pid == lastPid && 1 <= pid < MAX_PID && pid !in pids
      ensures forall x :: Passed(old(lastPid), pid, x) ==> x in pids
      ensures wraps <= 1
    {
      ghost var last := lastPid;
      lastPid := lastPid + 1;
      if lastPid >= MAX_PID {
        lastPid := 1;
      } else if lastPid < nextSafe {
        assert lastPid !in pids;
        return lastPid, 0;
      }
      ghost var from := lastPid;
      wraps := Scan();
      pid := lastPid;
      forall x | Passed(last, pid, x) ensures x in pids { assert Met(from, wraps, pid, x); }
      wraps := if last + 1 >= MAX_PID then 1 else wraps;
    }

    /** From the label `inside` on. */
    method Scan() returns (ghost wraps: int)
      requires |pids| < MAX_PROCESS && 1 <= lastPid < MAX_PID
      requires forall i :: 0 <= i < |pids| ==> 1 <= pids[i] < MAX_PID
      modifies this`lastPid, this`nextSafe
      ensures Valid() && 1 <= lastPid < MAX_PID && lastPid !in pids
      ensures 0 <= wraps <= 1 && (wraps == 1 ==> lastPid < old(lastPid)) && (wraps == 0 ==> old(lastPid) <= lastPid)
      ensures forall x :: Met(old(lastPid), wraps, lastPid, x) ==> x in pids
    {
      FreePidExists(pids);
      ghost var f :| 1 <= f < MAX_PID && f !in pids;
      ghost var from := lastPid;
      wraps := 0;
      nextSafe := MAX_PID;
      var i := 0;
      while i < |pids|
        invariant 0 <= i <= |pids| && 1 <= lastPid < MAX_PID && lastPid < nextSafe <= MAX_PID
        invariant forall j :: 0 <= j < i ==> !(lastPid <= pids[j] < nextSafe)
        invariant 0 <= wraps <= 1 && if wraps == 1 then lastPid <= f < from else from <= lastPid
        invariant forall x :: Met(from, wraps, lastPid, x) ==> x in pids
        decreases Distance(lastPid, f), |pids| - i
      {
        var p := pids[i];
        if p == lastPid {
          lastPid := lastPid + 1;
          if lastPid >= nextSafe {
            if lastPid >= MAX_PID {
              lastPid := 1;
              wraps := wraps + 1;
            }
            nextSafe := MAX_PID;
            i := 0;
            continue;
          }
        } else if p > lastPid && nextSafe > p {
          nextSafe := p;
        }
        i := i + 1;
      }
    }

    /** The process that was given the last pid joins the list. */
    method SetLinks()
      requires Valid() && lastPid < MAX_PID && lastPid !in pids
      modifies this`pids
      ensures Valid() && pids == [lastPid] + old(pids)
    {
      pids := [lastPid] + pids;
    }

    method RemoveLinks(p: int)
      requires Valid()
      modifies this`pids
      ensures Valid() && pids == Without(old(pids), p)
    {
      StillInRange(pids, p, lastPid, nextSafe);
      pids := Without(pids, p);
    }
  }

  lemma {:induction false} StillInRange(s: seq<int>, p: int, last: int, safe: int)
    ensures (forall i :: 0 <= i < |s| ==> 1 <= s[i] < MAX_PID) ==>
      forall i :: 0 <= i < |Without(s, p)| ==> 1 <= Without(s, p)[i] < MAX_PID
    ensures GapFree(s, last, safe) ==> GapFree(Without(s, p), last, safe)
  {
    if s != [] {
      StillInRange(s[1..], p, last, safe);
      assert forall i :: 0 <= i < |s[1..]| ==> s[1..][i] == s[i + 1];
    }
  }
}
