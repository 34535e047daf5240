/**
 * The small-object allocator: a circular list of free blocks in address order, searched from a roving
 * pointer. Addresses and sizes count units; each block keeps its size and its successor in its first unit.
 */
module Slob {
  import opened Runs

  const PAGE_UNITS := 512
  const UNIT := 8

  /** The fewest units of eight bytes that hold that many. */
  function Units(size: int): (n: int)
    ensures 8 * (n - 1) < size <= 8 * n
  {
    (size + UNIT - 1) / UNIT
  }

  /** The circular successor of position i. */
  function Next(s: seq<Run>, i: int): int { if i + 1 < |s| then i + 1 else 0 }

  function Previous(s: seq<Run>, i: int): int { if i > 0 then i - 1 else |s| - 1 }

  ghost predicate Link(units: map<int, int>, next: map<int, int>, s: seq<Run>, i: int) {
    && 0 <= i < |s| && s[i].at in units && s[i].at in next
    && units[s[i].at] == s[i].len && next[s[i].at] == s[Next(s, i)].at
  }

  /** The headers in memory form one circle through the blocks in order: a single wrap, at the end. */
  ghost predicate Ring(units: map<int, int>, next: map<int, int>, s: seq<Run>) {
    s != [] && forall i :: 0 <= i < |s| ==> Link(units, next, s, i)
  }

  /** The block before the gap a new block goes into. */
  function Gap(s: seq<Run>, at: int): int { Previous(s, Below(s, at)) }

  /** A block below the only free block, and touching it: its neighbour would be merged away under the rover. */
  predicate Swallows(s: seq<Run>, r: Run) { |s| == 1 && r.End() == s[0].at }

  // ---- Memory after each pointer surgery ----

  /** The headers once b, of the given size, is linked in after cur and merged with what it touches. */
  function UnitsAfterFree(units: map<int, int>, next: map<int, int>, cur: int, b: int): map<int, int>
    requires cur in units && cur in next && b in units && next[cur] in units
  {
    var u := if b + units[b] == next[cur] then units[b := units[b] + units[next[cur]]] else units;
    if cur + u[cur] == b then u[cur := u[cur] + u[b]] else u
  }

  function NextAfterFree(units: map<int, int>, next: map<int, int>, cur: int, b: int): map<int, int>
    requires cur in units && cur in next && b in units && next[cur] in units && next[cur] in next
  {
    var n := next[b := if b + units[b] == next[cur] then next[next[cur]] else next[cur]];
    n[cur := if cur + units[cur] == b then n[b] else b]
  }

  lemma GapIsApart(s: seq<Run>, r: Run)
    requires Canonical(s) && Free(s, r) && s != []
    ensures var k, g := Below(s, r.at), Gap(s, r.at);
      && 0 <= g < |s| && Next(s, g) == (if k < |s| then k else 0)
      && (s[g].End() == r.at <==> JoinsLow(s, k, r))
      && (r.End() == s[Next(s, g)].at <==> JoinsHigh(s, k, r))
      && (forall i :: 0 <= i < |s| ==> s[i].at != r.at)
  {
    FreePlace(s, r);
    var k := Below(s, r.at);
    assert k == 0 ==> s[|s| - 1].at >= s[0].at;
  }

  /** The list t after putting r into s, by position: g is the gap, lo the place of the new block. */
  ghost predicate Shape(s: seq<Run>, r: Run, t: seq<Run>, g: int, lo: int, hi: int, low: bool, high: bool) {
    && 0 <= lo <= hi <= |s| && |t| == lo + 1 + |s| - hi && 0 <= g < |s|
    && (forall j :: 0 <= j < lo ==> t[j] == s[j])
    && (forall j :: lo < j < |t| ==> t[j] == s[j - lo - 1 + hi])
    && t[lo].at == (if low then s[g].at else r.at)
    && t[lo].len == (if low then s[g].len else 0) + r.len + (if high then s[Next(s, g)].len else 0)
    && (if g == |s| - 1 && s[0].at > r.at then lo == 0 && hi == (if high then 1 else 0) && !low && (high ==> |s| > 1)
        else lo == (if low then g else g + 1) && hi == (if high then g + 2 else g + 1))
    && (forall i :: 0 <= i < |s| ==> s[i].at != r.at && (i != g ==> s[i].at != s[g].at))
  }

  /** What the stores leave in memory. */
  ghost predicate Stored(units: map<int, int>, next: map<int, int>, cur: int, b: int, low: bool, high: bool,
                         u: map<int, int>, n: map<int, int>)
  {
    && cur in units && cur in next && b in units && next[cur] in units && next[cur] in next && cur != b
    && cur in u && cur in n && b in u && b in n
    && (forall a :: a != cur && a != b && a in units && a in next ==> a in u && a in n && u[a] == units[a] && n[a] == next[a])
    && (var len := units[b] + (if high then units[next[cur]] else 0);
        var succ := if high then next[next[cur]] else next[cur];
        if low then u[cur] == units[cur] + len && n[cur] == succ
        else u[cur] == units[cur] && n[cur] == b && u[b] == len && n[b] == succ)
  }

  lemma AddByPosition(s: seq<Run>, r: Run, lo: int, hi: int)
    requires lo == Lo(s, Below(s, r.at), r) && hi == Hi(s, Below(s, r.at), r) && hi <= |s|
    ensures var t := Add(s, r);
      && |t| == lo + 1 + |s| - hi && t[lo] == Joined(s, Below(s, r.at), r)
      && (forall j :: 0 <= j < lo ==> t[j] == s[j])
      && (forall j :: lo < j < |t| ==> t[j] == s[j - lo - 1 + hi])
  {
  }

  lemma ShapeOfAdd(s: seq<Run>, r: Run)
    requires Canonical(s) && Free(s, r) && s != [] && !Swallows(s, r)
    ensures var k := Below(s, r.at);
      Shape(s, r, Add(s, r), Gap(s, r.at), Lo(s, k, r), Hi(s, k, r), JoinsLow(s, k, r), JoinsHigh(s, k, r))
  {
    hide Canonical, Free, Add, Shape;
    AddFits(s, r);
    AddByPosition(s, r, Lo(s, Below(s, r.at), r), Hi(s, Below(s, r.at), r));
    ShapeFits(s, r, Add(s, r), Below(s, r.at));
  }

  lemma AddFits(s: seq<Run>, r: Run)
    requires Canonical(s) && Free(s, r) && s != []
    ensures var k := Below(s, r.at);
      && Lo(s, k, r) <= Hi(s, k, r) <= |s| && 0 <= Gap(s, r.at) < |s|
      && (k == 0 <==> s[0].at > r.at)
      && (forall i :: 0 <= i < |s| ==> s[i].at != r.at && (i != Gap(s, r.at) ==> s[i].at != s[Gap(s, r.at)].at))
  {
    JoinedApart(s, r);
    GapIsApart(s, r);
    BelowDivides(s, r.at);
    forall i | 0 <= i < |s| && i != Gap(s, r.at) ensures s[i].at != s[Gap(s, r.at)].at { Distinct(s, i, Gap(s, r.at)); }
  }

  lemma ShapeFits(s: seq<Run>, r: Run, t: seq<Run>, k: nat)
    requires var lo, hi, g := Lo(s, k, r), Hi(s, k, r), Previous(s, k);
      && s != [] && k <= |s| && lo <= hi <= |s| && 0 <= g < |s| && (k == 0 <==> s[0].at > r.at) && !Swallows(s, r)
      && (forall i :: 0 <= i < |s| ==> s[i].at != r.at && (i != g ==> s[i].at != s[g].at))
      && |t| == lo + 1 + |s| - hi && t[lo] == Joined(s, k, r)
      && (forall j :: 0 <= j < lo ==> t[j] == s[j])
      && (forall j :: lo < j < |t| ==> t[j] == s[j - lo - 1 + hi])
    ensures Shape(s, r, t, Previous(s, k), Lo(s, k, r), Hi(s, k, r), JoinsLow(s, k, r), JoinsHigh(s, k, r))
  {
  }

  lemma LinkAfterFree(units: map<int, int>, next: map<int, int>, s: seq<Run>, r: Run, t: seq<Run>,
                      g: nat, lo: nat, hi: nat, low: bool, high: bool, u: map<int, int>, n: map<int, int>, j: nat)
    requires Ring(units, next, s) && Shape(s, r, t, g, lo, hi, low, high) && j < |t|
    requires r.at in units && units[r.at] == r.len
    requires Stored(units, next, s[g].at, r.at, low, high, u, n)
    ensures Link(u, n, t, j)
  {
    assert Link(units, next, s, g) && Link(units, next, s, Next(s, g));
    if j < lo {
      assert Link(units, next, s, j);
    } else if j > lo {
      assert Link(units, next, s, j - lo - 1 + hi);
    }
  }

  lemma StoredAfterFree(units: map<int, int>, next: map<int, int>, cur: int, b: int)
    requires cur in units && cur in next && b in units && next[cur] in units && next[cur] in next && cur != b
    ensures Stored(units, next, cur, b, cur + units[cur] == b, b + units[b] == next[cur],
                   UnitsAfterFree(units, next, cur, b), NextAfterFree(units, next, cur, b))
  {
  }

  lemma RingAfterFree(units: map<int, int>, next: map<int, int>, s: seq<Run>, r: Run)
    requires Canonical(s) && Free(s, r) && Ring(units, next, s) && !Swallows(s, r)
    requires r.at in units && units[r.at] == r.len
    ensures 0 <= Gap(s, r.at) < |s|
    ensures var cur := s[Gap(s, r.at)].at;
      && cur in units && cur in next && next[cur] in units && next[cur] in next
      && Ring(UnitsAfterFree(units, next, cur, r.at), NextAfterFree(units, next, cur, r.at), Add(s, r))
  {
    GapIsApart(s, r);
    AddIsCanonical(s, r);
    ShapeOfAdd(s, r);
    hide Canonical, Free, Add, Gap, Below, Lo, Hi, JoinsLow, JoinsHigh, Shape, UnitsAfterFree, NextAfterFree, Stored;
    var g, k, t := Gap(s, r.at), Below(s, r.at), Add(s, r);
    var cur := s[g].at;
    assert Link(units, next, s, g) && Link(units, next, s, Next(s, g));
    var u, n := UnitsAfterFree(units, next, cur, r.at), NextAfterFree(units, next, cur, r.at);
    StoredAfterFree(units, next, cur, r.at);
    forall j | 0 <= j < |t| ensures Link(u, n, t, j) {
      LinkAfterFree(units, next, s, r, t, g, Lo(s, k, r), Hi(s, k, r), JoinsLow(s, k, r), JoinsHigh(s, k, r), u, n, j);
    }
  }

  lemma Distinct(s: seq<Run>, i: nat, j: nat)
    requires Canonical(s) && i < |s| && j < |s| && i != j
    ensures s[i].at != s[j].at
  {
    assert if i < j then s[i].End() < s[j].at else s[j].End() < s[i].at;
  }

  // ---- Taking a block ----

  function UnitsAfterTake(units: map<int, int>, cur: int, n: int): map<int, int>
    requires cur in units
  {
    if units[cur] == n then units else units[cur + n := units[cur] - n][cur := n]
  }

  function NextAfterTake(units: map<int, int>, next: map<int, int>, prev: int, cur: int, n: int): map<int, int>
    requires cur in units && cur in next
  {
    if units[cur] == n then next[prev := next[cur]]
    else var m := next[prev := cur + n]; m[cur + n := m[cur]]
  }

  /** Where the block before position c stands once c has given up n units. */
  function RoverAfterTake(s: seq<Run>, c: nat, n: int): int
    requires c < |s|
  {
    if s[c].len == n && c == 0 then |s| - 2 else Previous(s, c)
  }

  /** The block handed out is left under the rover exactly when it was the only free block. */
  lemma RoverOnHandedIff(units: map<int, int>, next: map<int, int>, s: seq<Run>, c: nat)
    requires Canonical(s) && Ring(units, next, s) && c < |s|
    ensures s[Previous(s, c)].at == s[c].at <==> |s| == 1
  {
    if |s| > 1 { Distinct(s, Previous(s, c), c); }
  }

  /** With only the sentinel free, a one-unit request is given the sentinel, which stays linked. */
  lemma OneUnitTakesTheSentinel(arena: int)
    ensures var units, next, s := map[arena := 1], map[arena := arena], [Run(arena, 1)];
      Ring(units, next, s) && Canonical(s)
      && UnitsAfterTake(units, arena, 1) == units && NextAfterTake(units, next, arena, arena, 1) == next
  {
    assert Link(map[arena := 1], map[arena := arena], [Run(arena, 1)], 0);
    assert map[arena := arena][arena := arena] == map[arena := arena];
  }

  lemma InsideIsApart(s: seq<Run>, c: nat, n: int, i: nat)
    requires Canonical(s) && c < |s| && 0 < n < s[c].len && i < |s|
    ensures s[i].at != s[c].at + n && (i != c ==> s[i].at != s[c].at)
  {
    if i != c { assert if i < c then s[i].End() < s[c].at else s[c].End() < s[i].at; }
  }

  lemma LinkAfterTake(units: map<int, int>, next: map<int, int>, s: seq<Run>, c: nat, n: int, j: nat)
    requires Canonical(s) && Ring(units, next, s) && |s| > 1 && c < |s| && 0 < n <= s[c].len && j < |Take(s, c, n)|
    requires s[c].at in units && s[c].at in next
    ensures Link(UnitsAfterTake(units, s[c].at, n), NextAfterTake(units, next, s[Previous(s, c)].at, s[c].at, n), Take(s, c, n), j)
  {
    if s[c].len == n {
      LinkAfterUnlink(units, next, s, c, j);
      assert Link(units, next, s, c) && Take(s, c, n) == Without(s, c);
    } else {
      LinkAfterFragment(units, next, s, c, n, j);
    }
  }

  lemma LinkAfterUnlink(units: map<int, int>, next: map<int, int>, s: seq<Run>, c: nat, j: nat)
    requires Canonical(s) && Ring(units, next, s) && |s| > 1 && c < |s| && j < |s| - 1
    requires s[c].at in next
    ensures Link(units, next[s[Previous(s, c)].at := next[s[c].at]], Without(s, c), j)
  {
    var i, p := if j >= c then j + 1 else j, Previous(s, c);
    if i != p { Distinct(s, i, p); }
    hide Canonical, Without;
    WithoutAt(s, c, j);
    assert Link(units, next, s, c) && Link(units, next, s, i);
  }

  lemma WithoutAt<T>(s: seq<T>, c: nat, j: nat)
    requires c < |s| && j < |s| - 1
    ensures var t, i, p := Without(s, c), if j >= c then j + 1 else j, if c > 0 then c - 1 else |s| - 1;
      && |t| == |s| - 1 && t[j] == s[i]
      && t[if j + 1 < |t| then j + 1 else 0] ==
         s[if i == p then if c + 1 < |s| then c + 1 else 0 else if i + 1 < |s| then i + 1 else 0]
  {
  }

  lemma LinkAfterFragment(units: map<int, int>, next: map<int, int>, s: seq<Run>, c: nat, n: int, j: nat)
    requires Canonical(s) && Ring(units, next, s) && |s| > 1 && c < |s| && 0 < n < s[c].len && j < |s|
    requires s[c].at in units && s[c].at in next
    ensures Link(UnitsAfterTake(units, s[c].at, n), NextAfterTake(units, next, s[Previous(s, c)].at, s[c].at, n), Take(s, c, n), j)
  {
    var p := Previous(s, c);
    if j != p { Distinct(s, j, p); }
    Distinct(s, c, p);
    InsideIsApart(s, c, n, j);
    InsideIsApart(s, c, n, p);
    hide Canonical;
    assert Link(units, next, s, c) && Link(units, next, s, j);
  }

  lemma RingAfterTake(units: map<int, int>, next: map<int, int>, s: seq<Run>, c: nat, n: int)
    requires Canonical(s) && Ring(units, next, s) && |s| > 1 && c < |s| && 0 < n <= s[c].len
    requires s[c].at in units && s[c].at in next
    ensures Ring(UnitsAfterTake(units, s[c].at, n), NextAfterTake(units, next, s[Previous(s, c)].at, s[c].at, n), Take(s, c, n))
    ensures var v := RoverAfterTake(s, c, n);
      0 <= v < |Take(s, c, n)| && Take(s, c, n)[v].at == s[Previous(s, c)].at
  {
    var u, m := UnitsAfterTake(units, s[c].at, n), NextAfterTake(units, next, s[Previous(s, c)].at, s[c].at, n);
    forall j | 0 <= j < |Take(s, c, n)| ensures Link(u, m, Take(s, c, n), j) { LinkAfterTake(units, next, s, c, n, j); }
  }

  // ---- Free, live and taken units ----

  /** Free blocks and live objects divide up the taken units, with nothing shared. */
  ghost predicate Partition(free: seq<Run>, live: seq<Run>, taken: seq<Run>) {
    && Canonical(free) && Apart(free, live) && Total(free) + Total(live) == Total(taken)
    && Together(free, live, taken)
  }

  ghost predicate Together(free: seq<Run>, live: seq<Run>, taken: seq<Run>) {
    forall x :: In(taken, x) <==> In(free, x) || In(live, x)
  }

  ghost predicate Outside(s: seq<Run>, r: Run) {
    forall x :: r.at <= x < r.End() ==> !In(s, x)
  }

  lemma TakePartition(free: seq<Run>, live: seq<Run>, taken: seq<Run>, c: nat, n: int)
    requires Partition(free, live, taken) && c < |free| && 0 < n <= free[c].len
    ensures Partition(Take(free, c, n), [Run(free[c].at, n)] + live, taken)
  {
    var r, t := Run(free[c].at, n), Take(free, c, n);
    TakeKeeps(free, c, n);
    TakeTotal(free, c, n);
    TotalJoin([r], live);
    hide Take;
    forall i | 0 <= i < |live|
      ensures Free(t, live[i]) && (r.End() <= live[i].at || live[i].End() <= r.at)
    {
      var l := live[i];
      assert Free(free, l);
      FreeIsUncovered(free, l);
      forall x | l.at <= x < l.End() ensures !In(t, x) { TakeCovers(free, c, n, x); }
      FreeIsUncovered(t, l);
    }
    ApartMore(t, r, live);
    forall x ensures In(taken, x) <==> In(t, x) || In([r] + live, x) {
      TakeCovers(free, c, n, x);
      InJoin([r], live, x);
      OneIn(r, x);
      CoveredAt(free, c, x);
    }
  }

  lemma WithoutCovers(live: seq<Run>, i: nat, x: int)
    requires i < |live|
    ensures In(live, x) <==> In(Without(live, i), x) || live[i].at <= x < live[i].End()
  {
    assert live == live[..i] + live[i..];
    InJoin(live[..i], live[i..], x);
    DropFirst(live, i, x);
    InJoin(live[..i], live[i + 1..], x);
  }

  lemma WithoutTotal(live: seq<Run>, i: nat)
    requires i < |live|
    ensures Total(Without(live, i)) == Total(live) - live[i].len
  {
    TotalAt(live, i);
    TotalJoin(live[..i], live[i + 1..]);
  }

  lemma WithoutApart(free: seq<Run>, live: seq<Run>, i: nat)
    requires Canonical(free) && Apart(free, live) && i < |live|
    ensures Apart(Add(free, live[i]), Without(live, i))
  {
    var r, rest := live[i], Without(live, i);
    forall j | 0 <= j < |rest| ensures Free(Add(free, r), rest[j]) {
      assert rest[j] == live[if j < i then j else j + 1];
      StaysFree(free, r, rest[j]);
    }
    forall j, m | 0 <= j < m < |rest| ensures rest[j].End() <= rest[m].at || rest[m].End() <= rest[j].at {
      assert rest[j] == live[if j < i then j else j + 1] && rest[m] == live[if m < i then m else m + 1];
    }
  }

  lemma FreeTogether(free: seq<Run>, live: seq<Run>, taken: seq<Run>, i: nat)
    requires Canonical(free) && Together(free, live, taken) && i < |live| && Free(free, live[i])
    ensures Together(Add(free, live[i]), Without(live, i), taken)
  {
    hide Add, Canonical, Free, Without, In;
    forall x ensures In(taken, x) <==> In(Add(free, live[i]), x) || In(Without(live, i), x) {
      AddCovers(free, live[i], x);
      WithoutCovers(live, i, x);
    }
  }

  lemma FreePartition(free: seq<Run>, live: seq<Run>, taken: seq<Run>, i: nat)
    requires Partition(free, live, taken) && i < |live|
    ensures Partition(Add(free, live[i]), Without(live, i), taken)
  {
    assert Free(free, live[i]);
    hide Add, Canonical, Apart, Free, Without, Together;
    AddIsCanonical(free, live[i]);
    AddTotal(free, live[i]);
    WithoutTotal(live, i);
    WithoutApart(free, live, i);
    FreeTogether(free, live, taken, i);
  }

  lemma GrowIsFree(free: seq<Run>, live: seq<Run>, taken: seq<Run>, page: Run)
    requires Canonical(free) && Together(free, live, taken) && page.len > 0 && Outside(taken, page)
    ensures Free(free, page) && Outside(live, page)
  {
    hide Canonical, In;
    FreeIsUncovered(free, page);
  }

  lemma GrowApart(free: seq<Run>, live: seq<Run>, page: Run)
    requires Canonical(free) && Free(free, page) && Apart(free, live) && Outside(live, page)
    ensures Apart(Add(free, page), live)
  {
    hide Canonical, Add, In;
    forall i | 0 <= i < |live| ensures Free(Add(free, page), live[i]) {
      assert Free(free, live[i]);
      UncoveredIsApart(live, page, i, free);
      StaysFree(free, page, live[i]);
    }
  }

  lemma GrowTogether(free: seq<Run>, live: seq<Run>, taken: seq<Run>, page: Run)
    requires Canonical(free) && Free(free, page) && Together(free, live, taken)
    ensures Together(Add(free, page), live, [page] + taken)
  {
    hide Canonical, Free, Add, In;
    forall x ensures In([page] + taken, x) <==> In(Add(free, page), x) || In(live, x) {
      AddCovers(free, page, x);
      InJoin([page], taken, x);
      OneIn(page, x);
    }
  }

  lemma GrowPartition(free: seq<Run>, live: seq<Run>, taken: seq<Run>, page: Run)
    requires Partition(free, live, taken) && page.len > 0 && Outside(taken, page)
    ensures Free(free, page) && Partition(Add(free, page), live, [page] + taken)
  {
    hide Canonical, Apart, Together, Outside, Free, Add;
    GrowIsFree(free, live, taken, page);
    GrowApart(free, live, page);
    GrowTogether(free, live, taken, page);
    AddIsCanonical(free, page);
    AddTotal(free, page);
    TotalJoin([page], taken);
  }

  // ---- The allocator ----

  datatype Option<T> = None | Some(value: T)

  datatype Reply = Panicked | NoMemory | Given(p: int) {
    /** The block behind the pointer. */
    function Block(): Option<int> { if Given? then Some(p - 1) else None }
  }

  /** The positions a walk from after the rover has left behind when it stands at c. */
  ghost predicate Passed(rover: int, c: int, i: int) { if rover < c then rover < i < c else rover < i || i < c }

  ghost predicate NoneFits(s: seq<Run>, rover: int, n: int, c: int) {
    forall i :: 0 <= i < |s| && Passed(rover, c, i) ==> s[i].len < n
  }

  /** Next fit: the first block with room, in circular order from after the rover. */
  ghost predicate NextFit(s: seq<Run>, rover: int, n: int, c: int) {
    0 <= c < |s| && s[c].len >= n && NoneFits(s, rover, n, c)
  }

  ghost predicate FitsNowhere(s: seq<Run>, n: int) {
    forall i :: 0 <= i < |s| ==> s[i].len < n
  }

  /** The sentinel is one unit and touches no page. */
  ghost predicate Fenced(arena: int, taken: seq<Run>) {
    && taken != [] && taken[|taken| - 1] == Run(arena, 1)
    && (forall i :: 0 <= i < |taken| - 1 ==> taken[i].len == PAGE_UNITS)
    && !In(taken, arena - 1) && !In(taken, arena + 1)
  }

  /** The first n units of block c were handed out, and the rover stands on the block before it. */
  ghost predicate Took(s: seq<Run>, c: int, block: int, n: int, t: seq<Run>, rover: int) {
    0 <= c < |s| && s[c].at == block && t == Take(s, c, n) && rover == RoverAfterTake(s, c, n)
  }

  /** Each live object's header still holds its size. */
  ghost predicate Headed(units: map<int, int>, live: seq<Run>) {
    forall i :: 0 <= i < |live| ==> live[i].at in units && units[live[i].at] == live[i].len
  }

  ghost predicate Sound(arena: int, units: map<int, int>, free: seq<Run>, live: seq<Run>, taken: seq<Run>) {
    Headed(units, live) && Partition(free, live, taken) && Fenced(arena, taken)
  }

  /** Headers outside the free blocks, but for one, are as they were. */
  ghost predicate Kept(before: map<int, int>, after: map<int, int>, free: seq<Run>, b: int) {
    forall a :: a in before && a != b && !In(free, a) ==> a in after && after[a] == before[a]
  }

  /** A page the allocator may be given: none of its units is taken, and it does not touch the sentinel. */
  ghost predicate Fresh(arena: int, taken: seq<Run>, page: Run) {
    page.len == PAGE_UNITS && page.End() != arena && page.at != arena + 1 && Outside(taken, page)
  }

  class SlobHeap {
    const arena: int
    var units: map<int, int>
    var next: map<int, int>
    var slobfree: int
    ghost var free: seq<Run>
    ghost var rover: int
    ghost var live: seq<Run>
    ghost var taken: seq<Run>

    ghost predicate Linked()
      reads this
    {
      Canonical(free) && Ring(units, next, free) && 0 <= rover < |free| && slobfree == free[rover].at
    }

    /** One circle through the free blocks, and nothing handed out that is still on it. */
    ghost predicate Intact()
      reads this
    {
      Linked() && Sound(arena, units, free, live, taken)
    }

    /** The sentinel has not been handed out. */
    ghost predicate Valid()
      reads this
    {
      Intact() && Run(arena, 1) in free
    }

    constructor (arena: int)
      ensures Valid() && free == [Run(arena, 1)] && live == [] && taken == [Run(arena, 1)]
    {
      this.arena := arena;
      units, next, slobfree := map[arena := 1], map[arena := arena], arena;
      free, rover, live, taken := [Run(arena, 1)], 0, [], [Run(arena, 1)];
      new;
      forall x ensures !In(live, x) { }
      OneIn(Run(arena, 1), arena - 1);
      OneIn(Run(arena, 1), arena + 1);
    }

    ghost function Released(b: int, size: int): Run
      reads this
      requires size == 0 ==> b in units
    {
      Run(b, if size != 0 then Units(size) else units[b])
    }

    /** Block c of list s was handed out: soundly if another free block was left to stand on. */
    ghost predicate Handed(s: seq<Run>, c: int, l: seq<Run>, tk: seq<Run>, n: int, block: int)
      reads this
    {
      && 0 <= c < |s| && s[c].at == block && live == [Run(block, n)] + l && taken == tk
      && if |s| > 1 then Intact() && Took(s, c, block, n, free, rover) else Stuck(s[c], n)
    }

    /** The lone block: the rover is left on what was handed out, whose remainder links to itself. */
    ghost predicate Stuck(lone: Run, n: int)
      reads this
    {
      && slobfree == lone.at && lone.at in next
      && if lone.len == n then next[lone.at] == lone.at
         else next[lone.at] == lone.at + n && lone.at + n in next && next[lone.at + n] == lone.at + n
    }

    ghost predicate Served(s: seq<Run>, v: int, l: seq<Run>, tk: seq<Run>, n: int, block: int)
      reads this
    {
      exists c :: NextFit(s, v, n, c) && Handed(s, c, l, tk, n, block)
    }

    /** A new page swallowed the lone block, which stays linked with the rover on it. */
    ghost predicate Swallowed(lone: Run, page: int)
      reads this
    {
      && page < lone.at == slobfree && lone.at in next && next[lone.at] == page
      && page in next && next[page] == lone.at && page in units && page + units[page] == lone.End()
    }

    /** And after a request was met from that page, beside the page's remainder that covers it. */
    ghost predicate Doubled(lone: Run, page: int, n: int)
      reads this
    {
      && slobfree == lone.at && lone.at in next && next[lone.at] == page + n
      && page + n in next && next[page + n] == lone.at
      && page + n in units && page + n + units[page + n] == lone.End()
    }

    /** What a request of n units does to the list s with the rover at v, the objects l and the pages tk. */
    ghost predicate Answered(s: seq<Run>, v: int, l: seq<Run>, tk: seq<Run>, n: int, page: Option<int>, block: Option<int>)
      reads this
    {
      if !FitsNowhere(s, n) then
        block.Some? && Served(s, v, l, tk, n, block.value)
      else if page.None? then
        block.None? && Intact() && free == s && rover == v && live == l && taken == tk
      else
        var p := Run(page.value, PAGE_UNITS);
        && block.Some?
        && if Swallows(s, p) then block == page && Doubled(s[0], page.value, n)
           else Served(Add(s, p), RoverAfterFree(s, p), l, [p] + tk, n, block.value)
    }

    /** The walk stands at block c, with prev before it, and nothing behind it fits. */
    ghost predicate Walking(n: int, prev: int, cur: int, c: int)
      reads this
    {
      && Intact() && 0 <= c < |free| && cur == free[c].at && prev == free[Previous(free, c)].at
      && NoneFits(free, rover, n, c)
    }

    lemma StartsWalk(n: int)
      requires Intact()
      ensures slobfree in next && Walking(n, slobfree, next[slobfree], Next(free, rover))
    {
      NextIsKnown(units, next, free, rover);
      NonePassed(free, rover, n);
    }

    lemma Stands(n: int, prev: int, cur: int, c: nat)
      requires Walking(n, prev, cur, c)
      ensures prev in next && cur in units && cur in next && units[cur] == free[c].len
      ensures units[cur] >= n ==> NextFit(free, rover, n, c) && !FitsNowhere(free, n)
      ensures units[cur] < n && cur == slobfree ==> FitsNowhere(free, n)
      ensures units[cur] < n && cur != slobfree ==> Walking(n, cur, next[cur], Next(free, c)) && c != rover
    {
      hide Canonical, Sound, Ring, NoneFits, FitsNowhere, NextFit;
      NextIsKnown(units, next, free, c);
      NextIsKnown(units, next, free, Previous(free, c));
      if units[cur] >= n {
        Fits(free, rover, n, c);
      } else if cur == slobfree {
        OnePlace(free, c, rover);
        AllPassed(free, rover, n);
      } else {
        OneMorePassed(free, rover, n, c);
      }
    }

    /**
     * Next fit from the rover, growing by the offered page when nothing fits; at most one page is ever needed.
     * While the sentinel is free, all stays well unless the sentinel itself is handed out.
     */
    method SlobAlloc(size: int, page: Option<int>) returns (block: Option<int>)
      requires Intact() && 0 < size && size + UNIT < PAGE_UNITS * UNIT
      requires page.Some? ==> Fresh(arena, taken, Run(page.value, PAGE_UNITS))
      modifies this
      ensures Answered(old(free), old(rover), old(live), old(taken), Units(size), page, block)
      ensures old(Valid()) ==> (Valid() <==> block != Some(arena))
      ensures old(Valid()) ==> (block == Some(arena) <==> Units(size) == 1 && old(free[Next(free, rover)].at) == arena)
    {
      hide Sound, Ring, Fresh, Add, Take, FitsNowhere, NoneFits, NextFit, Handed, Swallows, RoverAfterFree, Free, Canonical;
      var n := Units(size);
      ghost var c, grown, spoiled := Next(free, rover), false, false;
      ghost var p := Run(if page.Some? then page.value else 0, PAGE_UNITS);
      StartsWalk(n);
      OneAlwaysFits(free);
      var prev := slobfree;
      var cur := next[prev];
      while true
        invariant if spoiled then Swallowed(old(free)[0], p.at) && prev == slobfree && cur == p.at && units[cur] > n
                  else Walking(n, prev, cur, c)
        invariant live == old(live) && (spoiled ==> grown && Swallows(old(free), p))
        invariant !grown ==> free == old(free) && rover == old(rover) && taken == old(taken)
        invariant grown ==> page.Some? && FitsNowhere(old(free), n) && taken == [p] + old(taken)
        invariant grown && !spoiled ==> !Swallows(old(free), p) && !FitsNowhere(free, n)
        invariant grown && !spoiled ==> free == Add(old(free), p) && rover == RoverAfterFree(old(free), p)
        invariant old(Valid()) ==> !spoiled && Valid()
        decreases !grown, if c <= rover then rover - c else rover - c + |free|
      {
        if !spoiled { Stands(n, prev, cur, c); }
        if units[cur] >= n {
          if old(Valid()) { SentinelServed(free, rover, n, c, arena); }
          ghost var s, v := free, rover;
          Hand(prev, cur, n, c, spoiled);
          assert !spoiled ==> NextFit(s, v, n, c) && Handed(s, c, old(live), if grown then [p] + old(taken) else old(taken), n, cur);
          return Some(cur);
        }
        if cur == slobfree {
          if page.None? { return None; }
          Grow(page.value, n);
          grown, spoiled := true, Swallows(old(free), p);
          cur := slobfree;
          c := rover;
          if !spoiled { StartsWalk(n); }
        }
        prev, cur := cur, next[cur];
        c := Next(free, c);
      }
    }

    /** Give the page to the free list. */
    method Grow(page: int, ghost n: int)
      requires Intact() && Fresh(arena, taken, Run(page, PAGE_UNITS)) && 0 < n < PAGE_UNITS
      modifies this
      ensures live == old(live) && taken == [Run(page, PAGE_UNITS)] + old(taken)
      ensures Swallows(old(free), Run(page, PAGE_UNITS)) ==> Swallowed(old(free)[0], page) && units[page] > n
      ensures !Swallows(old(free), Run(page, PAGE_UNITS)) ==>
        && Intact() && free == Add(old(free), Run(page, PAGE_UNITS)) && !FitsNowhere(free, n)
        && rover == RoverAfterFree(old(free), Run(page, PAGE_UNITS))
      ensures old(Valid()) ==> !Swallows(old(free), Run(page, PAGE_UNITS)) && Valid()
    {
      hide Canonical, Free, Add, Sound, Fresh, Ring, Kept;
      ghost var p := Run(page, PAGE_UNITS);
      GrowFits(arena, units, free, live, taken, p);
      AddHasRoom(free, p);
      SlobFree(page, PAGE_UNITS * UNIT);
      SoundAfterGrow(arena, old(units), units, old(free), live, taken, p);
      taken := [p] + taken;
    }

    /** Unlink the block, or split it and hand out its low part. */
    method Hand(prev: int, cur: int, n: int, ghost c: int, ghost spoiled: bool)
      requires prev in next && cur in units && cur in next && 0 < n <= units[cur]
      requires !spoiled ==> Intact() && 0 <= c < |free| && cur == free[c].at && prev == free[Previous(free, c)].at
      modifies this
      ensures spoiled ==>
        && units == UnitsAfterTake(old(units), cur, n) && next == NextAfterTake(old(units), old(next), prev, cur, n)
        && slobfree == prev
      ensures !spoiled ==> Handed(old(free), c, old(live), old(taken), n, cur)
      ensures !spoiled && old(Valid()) ==> (Valid() <==> cur != arena)
    {
      ghost var s, u, m := free, units, next;
      hide Canonical, Sound, Ring, Take, RoverAfterTake, UnitsAfterTake, NextAfterTake;
      if !spoiled { TakeFits(arena, u, m, s, live, taken, c, n); }
      Cut(prev, cur, n);
      live := [Run(cur, n)] + live;
      if !spoiled {
        if |s| > 1 {
          rover := RoverAfterTake(s, c, n);
          free := Take(s, c, n);
        } else {
          HandedIsNotFree(arena, units, free, live, taken);
        }
      }
    }

    /** The pointer stores. A block that is its own predecessor stays linked, with the rover on it. */
    method Cut(prev: int, cur: int, n: int)
      requires prev in next && cur in units && cur in next
      modifies this`units, this`next, this`slobfree
      ensures units == UnitsAfterTake(old(units), cur, n)
      ensures next == NextAfterTake(old(units), old(next), prev, cur, n)
      ensures slobfree == prev
    {
      if units[cur] == n {
        next := next[prev := next[cur]];
      } else {
        next := next[prev := cur + n];
        units := units[next[prev] := units[cur] - n];
        next := next[next[prev] := next[cur]];
        units := units[cur := n];
      }
      slobfree := prev;
    }

    /**
     * Requests of less than a page, with one more unit for the header. The guard lets through eight sizes that
     * the assertion in SlobAlloc does not; a request of size 0 is one unit, and is given the sentinel when that
     * comes next after the rover.
     */
    method Kmalloc(size: int, page: Option<int>) returns (r: Reply)
      requires Intact() && 0 <= size < PAGE_UNITS * UNIT - UNIT
      requires page.Some? ==> Fresh(arena, taken, Run(page.value, PAGE_UNITS))
      modifies this
      ensures r == Panicked <==> size + 2 * UNIT >= PAGE_UNITS * UNIT
      ensures r == Panicked ==> unchanged(this)
      ensures r != Panicked ==>
        Answered(old(free), old(rover), old(live), old(taken), Units(size) + 1, page, r.Block())
      ensures old(Valid()) && r != Panicked ==> (Valid() <==> r != Given(arena + 1))
      ensures old(Valid()) ==> (r == Given(arena + 1) <==> size == 0 && old(free[Next(free, rover)].at) == arena)
    {
      hide Linked, Sound, Fresh, Answered;
      if size + UNIT + UNIT >= PAGE_UNITS * UNIT { return Panicked; }
      var m := SlobAlloc(size + UNIT, page);
      r := if m.Some? then Given(m.value + 1) else NoMemory;
    }

    /** The size is read back from the header the object was handed out with. */
    method Kfree(p: Option<int>, ghost i: nat)
      requires Intact() && (p.Some? ==> i < |live| && live[i].at == p.value - 1)
      modifies this
      ensures p.None? ==> unchanged(this)
      ensures taken == old(taken) && (p.Some? ==> live == Without(old(live), i))
      ensures p.Some? && !Swallows(old(free), old(live)[i]) ==> Intact() && free == Add(old(free), old(live)[i])
      ensures p.Some? && Swallows(old(free), old(live)[i]) ==> Swallowed(old(free)[0], p.value - 1)
      ensures old(Valid()) || (p.Some? && old(live)[i] == Run(arena, 1)) ==> Valid()
    {
      hide Canonical, Free, Add, Sound, Ring, Kept, Without, Swallows;
      if p.None? { return; }
      LiveFits(arena, units, free, live, taken, i);
      assert Released(p.value - 1, 0) == live[i];
      SlobFree(p.value - 1, 0);
      SoundAfterFree(arena, old(units), units, old(free), live, taken, i);
      live := Without(live, i);
    }

    /** Link a block in and merge it. Below a lone block that it touches, the list is spoiled. */
    method SlobFree(b: int, size: int)
      requires Linked() && size >= 0 && (size == 0 ==> b in units) && Free(free, Released(b, size))
      modifies this`units, this`next, this`slobfree, this`free, this`rover
      ensures !Swallows(old(free), old(Released(b, size))) ==> Linked() && free == Add(old(free), old(Released(b, size)))
      ensures rover == RoverAfterFree(old(free), old(Released(b, size)))
      ensures Swallows(old(free), old(Released(b, size))) ==> Swallowed(old(free)[0], b)
      ensures Kept(old(units), units, old(free), b)
    {
      hide Canonical, Free, Add, Below, Gap, Units, In, Link, UnitsAfterFree, NextAfterFree;
      ghost var s, r := free, Released(b, size);
      if size != 0 { units := units[b := Units(size)]; }
      RingElsewhere(old(units), units, next, s, r);
      var cur := FindGap(b, r);
      GapIsApart(s, r);
      NextIsKnown(units, next, s, Gap(s, b));
      Attach(cur, b);
      free := Add(s, r);
      rover := RoverAfterFree(s, r);
      if !Swallows(s, r) {
        RingAfterFree(old(units)[b := r.len], old(next), s, r);
        AddIsCanonical(s, r);
        RoverIsGap(s, r);
      } else {
        SpoiledRing(old(units)[b := r.len], old(next), s, r);
      }
    }

    /** The pointer stores: link b in after cur and merge it with what it touches. */
    method Attach(cur: int, b: int)
      requires cur in units && cur in next && b in units && next[cur] in units && next[cur] in next && cur != b
      modifies this`units, this`next, this`slobfree
      ensures units == UnitsAfterFree(old(units), old(next), cur, b)
      ensures next == NextAfterFree(old(units), old(next), cur, b)
      ensures slobfree == cur
      ensures forall a :: a in old(units) && a != cur && a != b ==> a in units && units[a] == old(units)[a]
    {
      if b + units[b] == next[cur] {
        units := units[b := units[b] + units[next[cur]]];
        next := next[b := next[next[cur]]];
      } else {
        next := next[b := next[cur]];
      }
      if cur + units[cur] == b {
        units := units[cur := units[cur] + units[b]];
        next := next[cur := next[b]];
      } else {
        next := next[cur := b];
      }
      slobfree := cur;
    }

    /** Walk from the rover to the block the new one goes after. */
    method FindGap(b: int, ghost r: Run) returns (cur: int)
      requires Linked() && Free(free, r) && r.at == b
      ensures 0 <= Gap(free, b) < |free| && cur == free[Gap(free, b)].at
    {
      ghost var c, g := rover, Gap(free, b);
      GapIsApart(free, r);
      hide Canonical, Free, Gap;
      cur := slobfree;
      assert Link(units, next, free, c);
      while !(b > cur && b < next[cur])
        invariant 0 <= c < |free| && Link(units, next, free, c) && cur == free[c].at
        decreases if c <= g then g - c else g - c + |free|
      {
        GapOnly(free, r, c);
        if cur >= next[cur] && (b > cur || b < next[cur]) { break; }
        c := Next(free, c);
        cur := next[cur];
        assert Link(units, next, free, c);
      }
      GapOnly(free, r, c);
    }
  }

  lemma NextIsKnown(units: map<int, int>, next: map<int, int>, s: seq<Run>, g: int)
    requires Canonical(s) && Ring(units, next, s) && 0 <= g < |s|
    ensures In(s, s[g].at)
    ensures var cur := s[g].at;
      cur in units && cur in next && next[cur] in units && next[cur] in next && next[cur] == s[Next(s, g)].at
    ensures s[g].len == units[s[g].at]
  {
    assert Link(units, next, s, g) && Link(units, next, s, Next(s, g));
    CoveredAt(s, g, s[g].at);
  }

  /** Freed below the only block and touching it: the swallowed block stays linked, with the rover on it. */
  lemma SpoiledRing(units: map<int, int>, next: map<int, int>, s: seq<Run>, r: Run)
    requires Canonical(s) && Free(s, r) && Ring(units, next, s) && Swallows(s, r) && r.at in units && units[r.at] == r.len
    ensures var cur := s[0].at;
      && r.at < cur && Gap(s, r.at) == 0 && cur in units && cur in next && next[cur] in units && next[cur] in next
      && var n, u := NextAfterFree(units, next, cur, r.at), UnitsAfterFree(units, next, cur, r.at);
         cur in n && n[cur] == r.at && r.at in n && n[r.at] == cur && r.at in u && r.at + u[r.at] == s[0].End()
  {
    GapIsApart(s, r);
    NextIsKnown(units, next, s, 0);
    assert r.at < s[0].at && s[0].len > 0;
  }

  lemma RingElsewhere(old_: map<int, int>, units: map<int, int>, next: map<int, int>, s: seq<Run>, r: Run)
    requires Canonical(s) && Free(s, r) && Ring(old_, next, s)
    requires r.at in units && units == old_[r.at := units[r.at]]
    ensures Ring(units, next, s)
  {
    GapIsApart(s, r);
    forall i | 0 <= i < |s| ensures Link(units, next, s, i) { assert Link(old_, next, s, i); }
  }

  lemma RoverIsGap(s: seq<Run>, r: Run)
    requires Canonical(s) && Free(s, r) && s != [] && !Swallows(s, r)
    ensures var v := RoverAfterFree(s, r);
      0 <= v < |Add(s, r)| && 0 <= Gap(s, r.at) < |s| && Add(s, r)[v].at == s[Gap(s, r.at)].at
  {
    var k := Below(s, r.at);
    JoinedApart(s, r);
    GapIsApart(s, r);
    hide Canonical, Free, Add, Below;
    AddByPosition(s, r, Lo(s, k, r), Hi(s, k, r));
  }

  /** The walk for the gap stops there and only there. */
  lemma GapOnly(s: seq<Run>, r: Run, c: nat)
    requires Canonical(s) && Free(s, r) && c < |s|
    ensures c == Gap(s, r.at) <==>
      s[c].at < r.at < s[Next(s, c)].at || (s[c].at >= s[Next(s, c)].at && (r.at > s[c].at || r.at < s[Next(s, c)].at))
  {
    BelowDivides(s, r.at);
    GapIsApart(s, r);
  }

  /** The rover goes to the block before the gap, or to the block it became. */
  ghost function RoverAfterFree(s: seq<Run>, r: Run): int {
    var k := Below(s, r.at);
    if k > 0 then k - 1 else |Add(s, r)| - 1
  }

  // ---- The sentinel and the headers ----

  lemma SentinelKept(s: seq<Run>, r: Run, arena: int)
    requires Canonical(s) && Free(s, r) && Run(arena, 1) in s && r.End() != arena && r.at != arena + 1
    ensures Run(arena, 1) in Add(s, r) && !Swallows(s, r)
  {
    var k := Below(s, r.at);
    JoinedApart(s, r);
    var lo, hi := Lo(s, k, r), Hi(s, k, r);
    AddByPosition(s, r, lo, hi);
    hide Canonical, Free, Add, Below;
    var i :| 0 <= i < |s| && s[i] == Run(arena, 1);
    if i < lo {
      assert Add(s, r)[i] == s[i];
    } else {
      assert Add(s, r)[lo + 1 + i - hi] == s[i];
    }
  }

  /** The sentinel stays exactly if it is not the block that gives. */
  lemma SentinelAfterTake(s: seq<Run>, c: nat, n: int, arena: int)
    requires Canonical(s) && Run(arena, 1) in s && c < |s| && 0 < n <= s[c].len
    ensures Run(arena, 1) in Take(s, c, n) <==> s[c].at != arena
    ensures s[c].at == arena ==> n == 1
    ensures |s| == 1 ==> s[c].at == arena
  {
    var i :| 0 <= i < |s| && s[i] == Run(arena, 1);
    if i == c {
      forall j | 0 <= j < |s| && j != c ensures s[j].at != arena { Distinct(s, j, c); }
      hide Canonical;
      assert Take(s, c, n) == s[..c] + s[c + 1..];
    } else {
      Distinct(s, i, c);
      hide Canonical;
      assert Take(s, c, n)[if s[c].len == n && i > c then i - 1 else i] == s[i];
    }
  }

  /** A request is given the sentinel exactly if it is for one unit and the sentinel comes next. */
  lemma SentinelServed(s: seq<Run>, rover: nat, n: int, c: nat, arena: int)
    requires Canonical(s) && Run(arena, 1) in s && rover < |s| && n > 0 && NextFit(s, rover, n, c)
    ensures s[c].at == arena <==> n == 1 && s[Next(s, rover)].at == arena
  {
    SentinelAfterTake(s, c, n, arena);
    if n == 1 {
      var d := Next(s, rover);
      assert s[d].len > 0 && !Passed(rover, c, d);
    }
  }

  lemma OneAlwaysFits(s: seq<Run>)
    requires Canonical(s) && s != []
    ensures !FitsNowhere(s, 1)
  {
    assert s[0].len >= 1;
  }

  lemma LoneIsStuck(units: map<int, int>, next: map<int, int>, s: seq<Run>, n: int)
    requires |s| == 1 && Ring(units, next, s) && 0 < n <= s[0].len
    requires s[0].at in units && s[0].at in next
    ensures var at, m := s[0].at, NextAfterTake(units, next, s[0].at, s[0].at, n);
      && at in m
      && if s[0].len == n then m[at] == at else m[at] == at + n && at + n in m && m[at + n] == at + n
  {
    assert Link(units, next, s, 0);
  }

  lemma OverlapIsNotFree(s: seq<Run>, r: Run)
    requires s != [] && s[0].at == r.at && s[0].len > 0
    ensures !Free(s, r)
  {
    assert r.len > 0 ==> !(s[0].End() <= r.at || r.End() <= s[0].at);
  }

  lemma HandedIsNotFree(arena: int, units: map<int, int>, free: seq<Run>, live: seq<Run>, taken: seq<Run>)
    requires live != [] && free != [] && live[0].at == free[0].at && free[0].len > 0
    ensures !Sound(arena, units, free, live, taken)
  {
    OverlapIsNotFree(free, live[0]);
  }

  lemma FencedKept(arena: int, taken: seq<Run>, page: Run)
    requires Fenced(arena, taken) && page.len == PAGE_UNITS && page.End() != arena && page.at != arena + 1
    requires Outside(taken, page)
    ensures Fenced(arena, [page] + taken)
  {
    CoveredAt(taken, |taken| - 1, arena);
    InJoin([page], taken, arena - 1);
    InJoin([page], taken, arena + 1);
    OneIn(page, arena - 1);
    OneIn(page, arena + 1);
    assert !(page.at <= arena < page.End());
  }

  lemma AddHasRoom(s: seq<Run>, r: Run)
    requires Canonical(s) && Free(s, r)
    ensures exists i :: 0 <= i < |Add(s, r)| && Add(s, r)[i].len >= r.len
  {
    JoinedApart(s, r);
    var k := Below(s, r.at);
    AddByPosition(s, r, Lo(s, k, r), Hi(s, k, r));
    assert Joined(s, k, r).len >= r.len;
  }

  lemma LiveIsNotFree(free: seq<Run>, live: seq<Run>, taken: seq<Run>, at: int)
    requires Partition(free, live, taken)
    ensures forall i :: 0 <= i < |live| ==> !In(free, live[i].at) && (!In(taken, at) ==> live[i].at != at)
  {
    forall i | 0 <= i < |live| ensures !In(free, live[i].at) && (!In(taken, at) ==> live[i].at != at) {
      assert Free(free, live[i]);
      FreeIsUncovered(free, live[i]);
      CoveredAt(live, i, live[i].at);
    }
  }

  lemma LiveIsFenced(free: seq<Run>, live: seq<Run>, taken: seq<Run>, arena: int, i: nat)
    requires Partition(free, live, taken) && Fenced(arena, taken) && i < |live|
    ensures Free(free, live[i]) && live[i].End() != arena && live[i].at != arena + 1
  {
    assert Free(free, live[i]);
    CoveredAt(live, i, arena - 1);
    CoveredAt(live, i, arena + 1);
  }

  lemma LiveElsewhere(free: seq<Run>, live: seq<Run>, i: nat)
    requires Apart(free, live) && i < |live|
    ensures forall j :: 0 <= j < |live| && j != i ==> live[j].at != live[i].at
  {
    forall j | 0 <= j < |live| && j != i ensures live[j].at != live[i].at {
      assert Free(free, live[i]) && Free(free, live[j]);
    }
  }

  lemma HeadersAfterTake(units: map<int, int>, free: seq<Run>, live: seq<Run>, taken: seq<Run>, c: nat, n: int)
    requires Partition(free, live, taken) && c < |free| && 0 < n <= free[c].len
    requires free[c].at in units && units[free[c].at] == free[c].len
    requires forall i :: 0 <= i < |live| ==> live[i].at in units && units[live[i].at] == live[i].len
    ensures var u, l := UnitsAfterTake(units, free[c].at, n), [Run(free[c].at, n)] + live;
      forall i :: 0 <= i < |l| ==> l[i].at in u && u[l[i].at] == l[i].len
  {
    LiveIsNotFree(free, live, taken, 0);
    forall i | 0 <= i < |live|
      ensures live[i].at != free[c].at && (n < free[c].len ==> live[i].at != free[c].at + n)
    {
      CoveredAt(free, c, live[i].at);
    }
  }

  lemma GrowFits(arena: int, units: map<int, int>, free: seq<Run>, live: seq<Run>, taken: seq<Run>, p: Run)
    requires Sound(arena, units, free, live, taken) && Fresh(arena, taken, p)
    ensures Canonical(free) && Free(free, p)
    ensures Run(arena, 1) in free ==> !Swallows(free, p) && Run(arena, 1) in Add(free, p)
  {
    GrowPartition(free, live, taken, p);
    if Run(arena, 1) in free { SentinelKept(free, p, arena); }
  }

  lemma SoundAfterGrow(arena: int, units: map<int, int>, after: map<int, int>, free: seq<Run>, live: seq<Run>,
                       taken: seq<Run>, p: Run)
    requires Sound(arena, units, free, live, taken) && Fresh(arena, taken, p) && Kept(units, after, free, p.at)
    ensures Sound(arena, after, Add(free, p), live, [p] + taken)
  {
    GrowPartition(free, live, taken, p);
    FencedKept(arena, taken, p);
    LiveIsNotFree(free, live, taken, p.at);
  }

  lemma SoundAfterTake(arena: int, units: map<int, int>, free: seq<Run>, live: seq<Run>, taken: seq<Run>, c: nat, n: int)
    requires Sound(arena, units, free, live, taken) && c < |free| && 0 < n <= free[c].len
    requires free[c].at in units && units[free[c].at] == free[c].len
    ensures Sound(arena, UnitsAfterTake(units, free[c].at, n), Take(free, c, n), [Run(free[c].at, n)] + live, taken)
  {
    hide Fenced;
    TakePartition(free, live, taken, c, n);
    HeadersAfterTake(units, free, live, taken, c, n);
  }

  lemma TakeFits(arena: int, units: map<int, int>, next: map<int, int>, free: seq<Run>, live: seq<Run>, taken: seq<Run>,
                 c: nat, n: int)
    requires Canonical(free) && Ring(units, next, free) && Sound(arena, units, free, live, taken)
    requires c < |free| && free[c].at in units && free[c].at in next && 0 < n <= units[free[c].at]
    ensures free[c].len == units[free[c].at] && free[c].len > 0
    ensures |free| > 1 ==>
      && Canonical(Take(free, c, n))
      && Ring(UnitsAfterTake(units, free[c].at, n), NextAfterTake(units, next, free[Previous(free, c)].at, free[c].at, n), Take(free, c, n))
      && Sound(arena, UnitsAfterTake(units, free[c].at, n), Take(free, c, n), [Run(free[c].at, n)] + live, taken)
      && var v := RoverAfterTake(free, c, n);
         0 <= v < |Take(free, c, n)| && Take(free, c, n)[v].at == free[Previous(free, c)].at
    ensures |free| == 1 ==>
      var at, m := free[0].at, NextAfterTake(units, next, free[0].at, free[0].at, n);
      && at in m
      && if free[0].len == n then m[at] == at else m[at] == at + n && at + n in m && m[at + n] == at + n
    ensures Run(arena, 1) in free ==>
      && (Run(arena, 1) in Take(free, c, n) <==> free[c].at != arena) && (|free| == 1 ==> free[c].at == arena)
  {
    NextIsKnown(units, next, free, c);
    hide Sound, Ring, Take, Link, UnitsAfterTake, NextAfterTake, RoverAfterTake;
    if Run(arena, 1) in free { SentinelAfterTake(free, c, n, arena); }
    if |free| > 1 {
      TakeKeeps(free, c, n);
      SoundAfterTake(arena, units, free, live, taken, c, n);
      RingAfterTake(units, next, free, c, n);
    } else {
      LoneIsStuck(units, next, free, n);
    }
  }

  /** An object can go back, above all the sentinel, which then is free again as it was. */
  lemma LiveFits(arena: int, units: map<int, int>, free: seq<Run>, live: seq<Run>, taken: seq<Run>, i: nat)
    requires Sound(arena, units, free, live, taken) && i < |live|
    ensures live[i].at in units && units[live[i].at] == live[i].len
    ensures Canonical(free) && Free(free, live[i])
    ensures Run(arena, 1) in free || live[i] == Run(arena, 1) ==>
      !Swallows(free, live[i]) && Run(arena, 1) in Add(free, live[i])
  {
    LiveIsFenced(free, live, taken, arena, i);
    if Run(arena, 1) in free {
      SentinelKept(free, live[i], arena);
    } else if live[i] == Run(arena, 1) {
      SentinelBack(free, live, taken, arena);
    }
  }

  lemma SentinelBack(free: seq<Run>, live: seq<Run>, taken: seq<Run>, arena: int)
    requires Partition(free, live, taken) && Fenced(arena, taken) && Free(free, Run(arena, 1))
    ensures !Swallows(free, Run(arena, 1)) && Run(arena, 1) in Add(free, Run(arena, 1))
  {
    var r, k := Run(arena, 1), Below(free, arena);
    assert !In(free, arena - 1) && !In(free, arena + 1);
    forall i | 0 <= i < |free| ensures free[i].End() != arena && free[i].at != arena + 1 {
      CoveredAt(free, i, arena - 1);
      CoveredAt(free, i, arena + 1);
    }
    assert Joined(free, k, r) == r && Add(free, r)[Lo(free, k, r)] == r;
  }

  lemma SoundAfterFree(arena: int, units: map<int, int>, after: map<int, int>, free: seq<Run>, live: seq<Run>,
                       taken: seq<Run>, i: nat)
    requires Sound(arena, units, free, live, taken) && i < |live| && Kept(units, after, free, live[i].at)
    ensures Sound(arena, after, Add(free, live[i]), Without(live, i), taken)
  {
    FreePartition(free, live, taken, i);
    HeadedAfterFree(units, after, free, live, taken, i);
    hide Partition, Fenced, Add, Headed;
  }

  lemma HeadedAfterFree(units: map<int, int>, after: map<int, int>, free: seq<Run>, live: seq<Run>,
                        taken: seq<Run>, i: nat)
    requires Headed(units, live) && Partition(free, live, taken) && i < |live| && Kept(units, after, free, live[i].at)
    ensures Headed(after, Without(live, i))
  {
    hide Apart, Canonical, Together, In;
    LiveIsNotFree(free, live, taken, 0);
    LiveElsewhere(free, live, i);
    var rest := Without(live, i);
    forall j | 0 <= j < |rest| ensures rest[j].at in after && after[rest[j].at] == rest[j].len {
      assert rest[j] == live[if j < i then j else j + 1];
    }
  }

  lemma NonePassed(s: seq<Run>, rover: nat, n: int)
    requires rover < |s|
    ensures NoneFits(s, rover, n, Next(s, rover))
  {
  }

  lemma OneMorePassed(s: seq<Run>, rover: nat, n: int, c: nat)
    requires rover < |s| && c < |s| && c != rover && NoneFits(s, rover, n, c) && s[c].len < n
    ensures NoneFits(s, rover, n, Next(s, c))
  {
    forall i | 0 <= i < |s| && Passed(rover, Next(s, c), i) ensures s[i].len < n {
      assert i != c ==> Passed(rover, c, i);
    }
  }

  lemma AllPassed(s: seq<Run>, rover: nat, n: int)
    requires rover < |s| && s[rover].len < n && NoneFits(s, rover, n, rover)
    ensures FitsNowhere(s, n)
  {
    forall i | 0 <= i < |s| ensures s[i].len < n { assert i != rover ==> Passed(rover, rover, i); }
  }

  lemma Fits(s: seq<Run>, rover: int, n: int, c: nat)
    requires c < |s| && s[c].len >= n && NoneFits(s, rover, n, c)
    ensures NextFit(s, rover, n, c) && !FitsNowhere(s, n)
  {
  }

  lemma OnePlace(s: seq<Run>, i: nat, j: nat)
    requires Canonical(s) && i < |s| && j < |s| && s[i].at == s[j].at
    ensures i == j
  {
    if i != j { Distinct(s, i, j); }
  }

  /** Free plus allocated units: the sentinel and a page's worth for every page taken. */
  lemma {:induction false} PagesAddUp(arena: int, taken: seq<Run>)
    requires Fenced(arena, taken)
    ensures Total(taken) == 1 + PAGE_UNITS * (|taken| - 1)
    decreases |taken|
  {
    if |taken| > 1 {
      DropFirst(taken, 0, arena - 1);
      DropFirst(taken, 0, arena + 1);
      assert taken[0..] == taken;
      PagesAddUp(arena, taken[1..]);
    }
  }
}
