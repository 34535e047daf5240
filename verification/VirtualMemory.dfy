/** Virtual memory areas: a sorted list with a one-entry cache, and the checks made of user addresses. */
module VirtualMemory {
  datatype Option<T> = None | Some(value: T)

  const WORD := 0x1_0000_0000
  const USERBASE := 0x0020_0000
  const USERTOP := 0x8000_0000
  const PGSIZE := 4096

  datatype Vma = Vma(start: int, end: int, read: bool, write: bool, stack: bool)

  // ---- 32-bit arithmetic ----

  function Plus(a: int, b: int): int { (a + b) % WORD }

  function RoundDown(a: int): int { a - a % PGSIZE }

  function RoundUp(a: int): int { RoundDown(Plus(a, PGSIZE - 1)) }

  predicate UserAccess(start: int, end: int) { USERBASE <= start < end <= USERTOP }

  // ---- The list ----

  ghost predicate Sorted(s: seq<Vma>) {
    && (forall i :: 0 <= i < |s| ==> 0 <= s[i].start < s[i].end < WORD)
    && (forall i, j :: 0 <= i < j < |s| ==> s[i].end <= s[j].start)
  }

  predicate Holds(v: Vma, a: int) { v.start <= a < v.end }

  ghost predicate Covered(s: seq<Vma>, a: int) {
    exists i :: 0 <= i < |s| && Holds(s[i], a)
  }

  ghost predicate ClearOf(s: seq<Vma>, start: int, end: int) {
    forall i :: 0 <= i < |s| ==> s[i].end <= start || end <= s[i].start
  }

  /** The area an address lies in, by looking at every area. */
  function Find(s: seq<Vma>, a: int): (v: Option<Vma>)
    ensures v.Some? ==> v.value in s && Holds(v.value, a)
    ensures v.None? ==> !Covered(s, a)
  {
    if s == [] then None
    else if Holds(s[0], a) then Some(s[0])
    else
      var v := Find(s[1..], a);
      assert forall i :: 0 < i < |s| ==> s[i] == s[1..][i - 1];
      v
  }

  lemma Apart(s: seq<Vma>, i: nat, j: nat)
    requires Sorted(s) && i < |s| && j < |s|
    ensures (i < j ==> s[i].end <= s[j].start) && (j < i ==> s[j].end <= s[i].start)
  {
  }

  /** At most one area holds an address. */
  lemma FindIsThe(s: seq<Vma>, v: Vma, a: int)
    requires Sorted(s) && v in s && Holds(v, a)
    ensures Find(s, a) == Some(v)
  {
    var i :| 0 <= i < |s| && s[i] == v;
    assert Covered(s, a);
    var w := Find(s, a).value;
    var j :| 0 <= j < |s| && s[j] == w;
    Apart(s, i, j);
  }

  // ---- User ranges ----

  predicate Permits(v: Vma, write: bool) { if write then v.write else v.read }

  /** Every address of the range lies in an area with the permission asked for. */
  ghost predicate Accessible(s: seq<Vma>, start: int, end: int, write: bool) {
    forall a :: start <= a < end ==> AccessibleAt(s, a, write)
  }

  ghost predicate AccessibleAt(s: seq<Vma>, a: int, write: bool) {
    Find(s, a).Some? && Permits(Find(s, a).value, write)
  }

  ghost predicate Ends(s: seq<Vma>, a: int) {
    exists i :: 0 <= i < |s| && s[i].end == a
  }

  /** A write that reaches a stack area must begin above that area's first page. */
  ghost predicate GuardKept(s: seq<Vma>, addr: int, from: int, end: int) {
    from < end ==>
      forall i :: 0 <= i < |s| && s[i].stack && from < s[i].end && s[i].start < end ==> addr >= s[i].start + PGSIZE
  }

  ghost predicate AllowedAt(s: seq<Vma>, a: int, write: bool) {
    exists i :: 0 <= i < |s| && s[i].start <= a < s[i].end && (if write then s[i].write else s[i].read)
  }

  /** A user range of which every address lies in an area that may be written, or read; and no write that reaches a stack
      begins in or below the first page of that stack. */
  ghost predicate Allowed(s: seq<Vma>, addr: int, len: int, write: bool) {
    && 0x20_0000 <= addr && 0 < len && addr + len <= 0x8000_0000
    && (forall a :: addr <= a < addr + len ==> AllowedAt(s, a, write))
    && (write ==>
         forall i :: 0 <= i < |s| && s[i].stack && addr < s[i].end && s[i].start < addr + len ==> addr >= s[i].start + 4096)
  }

  lemma AllowedIff(s: seq<Vma>, addr: int, len: int, write: bool)
    requires Sorted(s) && 0 <= addr < WORD && 0 <= len < WORD
    ensures Allowed(s, addr, len, write) <==>
      && UserAccess(addr, Plus(addr, len)) && Accessible(s, addr, addr + len, write)
      && (write ==> GuardKept(s, addr, addr, addr + len))
  {
    forall a ensures AccessibleAt(s, a, write) <==> AllowedAt(s, a, write) { AllowedIsAccessible(s, a, write); }
  }

  lemma AllowedIsAccessible(s: seq<Vma>, a: int, write: bool)
    requires Sorted(s)
    ensures AccessibleAt(s, a, write) <==> AllowedAt(s, a, write)
  {
    if AccessibleAt(s, a, write) {
      var i :| 0 <= i < |s| && s[i] == Find(s, a).value;
    }
    if AllowedAt(s, a, write) {
      var i :| 0 <= i < |s| && s[i].start <= a < s[i].end && (if write then s[i].write else s[i].read);
      FindIsThe(s, s[i], a);
    }
  }

  datatype MapResult = Mapped | Refused | NoMemory | Panicked

  /** The range begins outside every area but runs into one. */
  ghost predicate StraddlesLater(s: seq<Vma>, start: int, end: int) {
    !Covered(s, start) && exists i :: 0 <= i < |s| && start < s[i].start < end
  }

  ghost predicate Inserted(s: seq<Vma>, v: Vma, t: seq<Vma>) {
    exists k :: 0 <= k <= |s| && t == s[..k] + [v] + s[k..]
  }

  /** The area is the only one more than before. */
  ghost predicate IsNew(s: seq<Vma>, v: Vma, t: seq<Vma>) {
    v !in s && (forall w :: w in t <==> w in s || w == v) && |t| == |s| + 1
  }

  /** A user area of whole pages, of which the range begins in the first and, unless its end wraps, ends in the last. */
  ghost predicate MapsPages(v: Vma, addr: int, len: int) {
    && 0x20_0000 <= v.start < v.end <= 0x8000_0000 && v.start % 4096 == 0 && v.end % 4096 == 0
    && v.start <= addr < v.start + 4096
    && (addr + len < 0x1_0000_0000 ==> v.end - 4096 < addr + len <= v.end)
  }

  predicate SameFlags(v: Vma, flags: Vma) { v.read == flags.read && v.write == flags.write && v.stack == flags.stack }

  lemma RoundsToPages(addr: int, len: int, flags: Vma)
    requires 0 <= addr < WORD && 0 <= len < WORD && UserAccess(RoundDown(addr), RoundUp(Plus(addr, len)))
    ensures var v := flags.(start := RoundDown(addr), end := RoundUp(Plus(addr, len))); MapsPages(v, addr, len) && SameFlags(v, flags)
  {
  }

  lemma InsertedIsNew(s: seq<Vma>, v: Vma, t: seq<Vma>)
    requires Inserted(s, v, t) && v.start < v.end && ClearOf(s, v.start, v.end)
    ensures IsNew(s, v, t)
  {
    var k :| 0 <= k <= |s| && t == s[..k] + [v] + s[k..];
    forall i | 0 <= i < |s| ensures s[i] != v { }
    forall w | w in s ensures w in t { InsertHolds(s, k, v); }
  }

  class MmStruct {
    var mmapList: seq<Vma>
    var mmapCache: Option<Vma>
    var mapCount: int

    ghost predicate Valid()
      reads this
    {
      Sorted(mmapList) && (mmapCache.Some? ==> mmapCache.value in mmapList) && mapCount == |mmapList|
    }

    constructor ()
      ensures Valid() && mmapList == []
    {
      mmapList, mmapCache, mapCount := [], None, 0;
    }

    /** The cache never changes the answer. */
    method FindVma(addr: int) returns (v: Option<Vma>)
      requires Valid()
      modifies this`mmapCache
      ensures Valid() && v == Find(mmapList, addr) && mmapCache == if v.Some? then v else old(mmapCache)
    {
      v := mmapCache;
      if v.Some? && Holds(v.value, addr) {
        FindIsThe(mmapList, v.value, addr);
      } else {
        var i := 0;
        v := None;
        while i < |mmapList|
          invariant 0 <= i <= |mmapList| && v == None
          invariant forall j :: 0 <= j < i ==> !Holds(mmapList[j], addr)
        {
          if Holds(mmapList[i], addr) {
            v := Some(mmapList[i]);
            FindIsThe(mmapList, v.value, addr);
            break;
          }
          i := i + 1;
        }
      }
      if v.Some? { mmapCache := v; }
    }

    /** Link an area in by its start. The overlap assertions look at its two neighbours only, and that is enough. */
    method InsertVma(v: Vma) returns (ok: bool)
      requires Valid() && 0 <= v.start < WORD && 0 <= v.end < WORD
      modifies this`mmapList, this`mapCount
      ensures ok <==> v.start < v.end && ClearOf(old(mmapList), v.start, v.end)
      ensures ok ==> Valid() && Inserted(old(mmapList), v, mmapList)
      ensures !ok ==> mmapList == old(mmapList) && mapCount == old(mapCount)
    {
      if v.start >= v.end { return false; }
      var k := 0;
      while k < |mmapList| && mmapList[k].start <= v.start
        invariant 0 <= k <= |mmapList|
        invariant forall j :: 0 <= j < k ==> mmapList[j].start <= v.start
      {
        k := k + 1;
      }
      NeighboursSuffice(mmapList, k, v);
      if k > 0 && !(mmapList[k - 1].start < mmapList[k - 1].end <= v.start) { return false; }
      if k < |mmapList| && !(v.end <= mmapList[k].start < mmapList[k].end) { return false; }
      InsertKeeps(mmapList, k, v);
      InsertHolds(mmapList, k, v);
      hide Sorted, ClearOf;
      mmapList := mmapList[..k] + [v] + mmapList[k..];
      mapCount := mapCount + 1;
      ok := true;
    }

    /**
     * Map the pages of a range; whether there is memory for the new area is a parameter. Only an area holding the
     * first page is refused; an area further on is met by the overlap assertions instead.
     */
    method MmMap(addr: int, len: int, flags: Vma, memory: bool) returns (r: MapResult)
      requires Valid() && 0 <= addr < WORD && 0 <= len < WORD
      modifies this
      ensures var start, end, s := RoundDown(addr), RoundUp(Plus(addr, len)), old(mmapList);
        && (r == Refused <==> !UserAccess(start, end) || Covered(s, start))
        && (r == NoMemory <==> UserAccess(start, end) && !Covered(s, start) && !memory)
        && (r == Panicked <==> UserAccess(start, end) && StraddlesLater(s, start, end) && memory)
        && (r == Mapped <==> UserAccess(start, end) && ClearOf(s, start, end) && memory)
        && (r == Mapped ==> Inserted(s, flags.(start := start, end := end), mmapList))
      ensures r == Mapped ==> exists v :: IsNew(old(mmapList), v, mmapList) && MapsPages(v, addr, len) && SameFlags(v, flags)
      ensures r != Mapped ==> mmapList == old(mmapList)
      ensures Valid()
    {
      var start, end := RoundDown(addr), RoundUp(Plus(addr, len));
      if !UserAccess(start, end) { return Refused; }
      var v := FindVma(start);
      CoveredOrClear(mmapList, start, end);
      if v.Some? && end > v.value.start { return Refused; }
      if !memory { return NoMemory; }
      ghost var s, area := mmapList, flags.(start := start, end := end);
      RoundsToPages(addr, len, flags);
      var ok := InsertVma(flags.(start := start, end := end));
      hide MapsPages, IsNew, Inserted;
      if ok { InsertedIsNew(s, area, mmapList); }
      r := if ok then Mapped else Panicked;
    }

    /** Every area of the range is looked up in turn. */
    method UserMemCheck(addr: int, len: int, write: bool) returns (ok: bool)
      requires Valid() && 0 <= addr < WORD && 0 <= len < WORD
      modifies this`mmapCache
      ensures Valid()
      ensures ok <==> Allowed(mmapList, addr, len, write)
    {
      AllowedIff(mmapList, addr, len, write);
      hide Sorted, Accessible, GuardKept, Allowed;
      if !UserAccess(addr, Plus(addr, len)) { return false; }
      assert Plus(addr, len) == addr + len;
      var start, end := addr, Plus(addr, len);
      ghost var s := mmapList;
      NothingChecked(s, addr, write);
      while start < end
        invariant Valid() && addr <= start < WORD && mmapList == s
        invariant start > addr ==> Ends(s, start)
        invariant Accessible(s, addr, if start < end then start else end, write)
        invariant write ==> GuardKept(s, addr, addr, if start < end then start else end)
        decreases end - start
      {
        var v := FindVma(start);
        if v.None? || start < v.value.start || !Permits(v.value, write) {
          Blocked(s, addr, start, end, write);
          return false;
        }
        ghost var i :| 0 <= i < |s| && s[i] == v.value;
        if write && v.value.stack {
          if start < v.value.start + PGSIZE {
            GuardBroken(s, addr, start, end, i);
            return false;
          }
        }
        AreaChecked(s, addr, start, end, write, i);
        start := v.value.end;
      }
      ok := true;
    }
  }

  // ---- One area after another ----

  lemma NothingChecked(s: seq<Vma>, addr: int, write: bool)
    ensures Accessible(s, addr, addr, write) && GuardKept(s, addr, addr, addr)
  {
  }

  lemma Blocked(s: seq<Vma>, addr: int, start: int, end: int, write: bool)
    requires addr <= start < end && !AccessibleAt(s, start, write)
    ensures !Accessible(s, addr, end, write)
  {
  }

  lemma GuardBroken(s: seq<Vma>, addr: int, start: int, end: int, i: nat)
    requires i < |s| && s[i].stack && Holds(s[i], start) && addr <= start < end && start < s[i].start + PGSIZE
    ensures !GuardKept(s, addr, addr, end)
  {
    assert s[i].stack && addr < s[i].end && s[i].start < end;
  }

  /** What is known up to start is known up to the end of the area start lies in. */
  lemma AreaChecked(s: seq<Vma>, addr: int, start: int, end: int, write: bool, i: nat)
    requires Sorted(s) && i < |s| && Holds(s[i], start) && Permits(s[i], write) && addr <= start < end
    requires start > addr ==> Ends(s, start)
    requires Accessible(s, addr, start, write) && (write ==> GuardKept(s, addr, addr, start))
    requires write && s[i].stack ==> start >= s[i].start + PGSIZE
    ensures var stop := if s[i].end < end then s[i].end else end;
      Accessible(s, addr, stop, write) && (write ==> GuardKept(s, addr, addr, stop))
    ensures start < s[i].end < WORD && Ends(s, s[i].end)
  {
    EntersAtStart(s, addr, start, i);
    HoldsThrough(s, i, start, write);
    GuardThrough(s, addr, i, start, end, write);
    hide Sorted, GuardKept;
    forall a | addr <= a < s[i].end ensures AccessibleAt(s, a, write) {
      if a < start { assert AccessibleAt(s, a, write); }
    }
  }

  /** An area between two neighbours that clear it is clear of all. */
  lemma NeighboursSuffice(s: seq<Vma>, k: nat, v: Vma)
    requires Sorted(s) && k <= |s| && v.start < v.end
    requires forall j :: 0 <= j < k ==> s[j].start <= v.start
    requires k < |s| ==> s[k].start > v.start
    ensures ClearOf(s, v.start, v.end) <==> (k > 0 ==> s[k - 1].end <= v.start) && (k < |s| ==> v.end <= s[k].start)
  {
    if (k > 0 ==> s[k - 1].end <= v.start) && (k < |s| ==> v.end <= s[k].start) {
      forall i | 0 <= i < |s| ensures s[i].end <= v.start || v.end <= s[i].start {
        if i < k - 1 { assert s[i].end <= s[k - 1].start; }
        if i > k { assert s[k].end <= s[i].start; }
      }
    }
  }

  lemma InsertKeeps(s: seq<Vma>, k: nat, v: Vma)
    requires Sorted(s) && k <= |s| && 0 <= v.start < v.end < WORD
    requires (k > 0 ==> s[k - 1].end <= v.start) && (k < |s| ==> v.end <= s[k].start)
    ensures Sorted(s[..k] + [v] + s[k..])
  {
    var t := s[..k] + [v] + s[k..];
    forall i | 0 <= i < |t|
      ensures 0 <= t[i].start < t[i].end < WORD
      ensures i < k ==> t[i] == s[i] && t[i].end <= v.start
      ensures i > k ==> t[i] == s[i - 1] && v.end <= t[i].start
    {
      if i < k { Apart(s, i, k - 1); }
      if i > k { Apart(s, k, i - 1); }
    }
    forall i, j | 0 <= i < j < |t| ensures t[i].end <= t[j].start {
      if j < k { Apart(s, i, j); } else if i > k { Apart(s, i - 1, j - 1); }
    }
  }

  lemma InsertHolds(s: seq<Vma>, k: nat, v: Vma)
    requires k <= |s|
    ensures forall w :: w in s ==> w in s[..k] + [v] + s[k..]
  {
    assert s == s[..k] + s[k..];
  }

  /** Past the first area, each area is entered at its very start. */
  lemma EntersAtStart(s: seq<Vma>, addr: int, start: int, i: nat)
    requires Sorted(s) && i < |s| && Holds(s[i], start)
    requires start > addr ==> Ends(s, start)
    ensures start > addr ==> s[i].start == start
  {
    if start > addr {
      var j :| 0 <= j < |s| && s[j].end == start;
      Apart(s, i, j);
    }
  }

  lemma HoldsThrough(s: seq<Vma>, i: nat, start: int, write: bool)
    requires Sorted(s) && i < |s| && Holds(s[i], start) && Permits(s[i], write)
    ensures Accessible(s, start, s[i].end, write)
  {
    forall a | start <= a < s[i].end ensures AccessibleAt(s, a, write) { FindIsThe(s, s[i], a); }
  }

  /** The areas met up to the end of area i are those met before it, and area i. */
  lemma GuardThrough(s: seq<Vma>, addr: int, i: nat, start: int, end: int, write: bool)
    requires Sorted(s) && i < |s| && Holds(s[i], start) && addr <= start < end
    requires start > addr ==> s[i].start == start
    requires write ==> GuardKept(s, addr, addr, start)
    requires write && s[i].stack ==> start >= s[i].start + PGSIZE
    ensures write ==> GuardKept(s, addr, addr, if s[i].end < end then s[i].end else end)
  {
    if write {
      var stop := if s[i].end < end then s[i].end else end;
      forall j | 0 <= j < |s| && s[j].stack && addr < s[j].end && s[j].start < stop ensures addr >= s[j].start + PGSIZE {
        Apart(s, i, j);
      }
    }
  }

  lemma CoveredOrClear(s: seq<Vma>, start: int, end: int)
    requires Sorted(s) && start < end
    ensures Find(s, start).Some? <==> Covered(s, start)
    ensures Covered(s, start) ==> !ClearOf(s, start, end)
    ensures !Covered(s, start) ==> (ClearOf(s, start, end) <==> !StraddlesLater(s, start, end))
  {
    if Find(s, start).Some? {
      var v := Find(s, start).value;
      var i :| 0 <= i < |s| && s[i] == v;
      assert Holds(s[i], start);
    }
    if Covered(s, start) {
      var i :| 0 <= i < |s| && Holds(s[i], start);
      assert s[i] in s;
    } else if !ClearOf(s, start, end) {
      var i :| 0 <= i < |s| && !(s[i].end <= start || end <= s[i].start);
      assert !Holds(s[i], start);
    }
  }

  /** The pages mapped hold the whole range asked for exactly when its end does not wrap round 32 bits. */
  lemma MapsTheRangeIff(addr: int, len: int)
    requires 0 <= addr < WORD && 0 <= len < WORD && UserAccess(RoundDown(addr), RoundUp(Plus(addr, len)))
    ensures RoundDown(addr) <= addr && addr + len <= RoundUp(Plus(addr, len)) <==> addr + len < WORD
  {
  }

  /** A length that wraps: one page is mapped for a request of almost four gigabytes. */
  lemma WrappedMap()
    ensures var addr, len := 0x1000_0800, 0xFFFF_FFFF;
      && UserAccess(RoundDown(addr), RoundUp(Plus(addr, len)))
      && RoundUp(Plus(addr, len)) == RoundDown(addr) + PGSIZE
  {
  }
}
