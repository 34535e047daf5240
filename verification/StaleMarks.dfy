/** What a mark left over from an earlier epoch leads to: a page the TLB goes on translating after it was remapped. */
module StaleMarks {
  import opened TlbWords
  import opened Tlb

  // ----- Single steps, outside the invariant -----

  /** No slot answers for the pair of page x. */
  ghost predicate Unknown(m: Mmu, x: nat) {
    forall i :: 0 <= i < |m.slots| ==> m.slots[i].hi != Some(x / 2)
  }

  ghost predicate Fresh(m: Mmu, x: nat) {
    Unknown(m, x) && !Marked(m.pt, x) && !Marked(m.pt, Pair(x))
  }

  lemma UnknownMisses(m: Mmu, x: nat)
    requires Unknown(m, x)
    ensures Lookup(m, x) == Invalid
  {
    if Lookup(m, x) != Invalid { var k := FindFinds(m.slots, x, 0); }
  }

  ghost predicate SameMark(pt: map<nat, Pte>, pt': map<nat, Pte>, y: nat) {
    && (Marked(pt', y) <==> Marked(pt, y)) && (Marked(pt, y) ==> pt'[y] == pt[y])
    && (y in pt && pt[y].present ==> y in pt' && pt'[y].present)
  }

  /** Page x was given slot idx, alone or beside its pair. */
  ghost predicate Given(m: Mmu, m': Mmu, x: nat, idx: nat) {
    && WellSized(m) && WellSized(m') && idx < TLBN
    && m'.slots[idx].hi == Some(x / 2) && (forall i :: 0 <= i < TLBN && i != idx ==> m'.slots[i] == m.slots[i])
    && Marked(m'.pt, x) && m'.pt[x].slot == idx && Half(m'.slots[idx], x % 2) == EntryLo(m'.pt[x])
  }

  /** A page fault on an absent page that is not marked only maps the page. */
  lemma MapsIt(m: Mmu, x: nat, ppn: bv32, dirty: bool)
    requires !Marked(m.pt, x) && !(x in m.pt && m.pt[x].present)
    ensures var m1 := PageInsert(m, x, ppn, dirty);
      && m1 == m.(pt := m1.pt) && x in m1.pt && m1.pt[x] == Pte(ppn, dirty, true, 0, false)
      && forall y :: SameMark(m.pt, m1.pt, y) && (y != x && y in m.pt ==> y in m1.pt && m1.pt[y] == m.pt[y])
  {
    var pt := WithTable(m.pt, x);
    assert forall y :: y in m.pt ==> y in pt && pt[y] == m.pt[y];
  }

  /** Where the handler starts from once the fault, if there was one, is over. */
  ghost function Ready(m: Mmu, x: nat): Mmu {
    if x in m.pt && m.pt[x].present then m else PageInsert(m, x, 1, true)
  }

  const MAPS := Mapped(1, true)

  lemma ReadyFills(m: Mmu, x: nat)
    requires WellSized(m) && Unknown(m, x) && (!Marked(m.pt, x) || (x in m.pt && m.pt[x].present))
    ensures var m1 := Ready(m, x);
      && Apply(m, Access(x, MAPS)) == Fill(m1, x) && m1 == m.(pt := m1.pt) && x in m1.pt && m1.pt[x].present
      && forall y :: SameMark(m.pt, m1.pt, y)
  {
    UnknownMisses(m, x);
    if !(x in m.pt && m.pt[x].present) { MapsIt(m, x, 1, true); }
  }

  /** With empty slots left, a new page takes the top one. */
  lemma Pops(m: Mmu, x: nat, idx: nat)
    requires WellSized(m) && Fresh(m, x) && m.empty != [] && m.empty[|m.empty| - 1] == idx < TLBN
    ensures var m' := Apply(m, Access(x, MAPS));
      && Given(m, m', x, idx) && m'.pt[x].present && m'.ptr == m.ptr && m'.empty == m.empty[..|m.empty| - 1]
      && m'.hi == m.hi[idx := x / 2] && forall y :: y != x ==> SameMark(m.pt, m'.pt, y)
  {
    ReadyFills(m, x);
    hide Apply, PageInsert, Unknown;
    var m1 := Ready(m, x);
    assert SameMark(m.pt, m1.pt, Pair(x));
  }

  /** A page of pair h loses its mark, another page nothing. */
  ghost predicate LostAt(pt: map<nat, Pte>, pt': map<nat, Pte>, h: nat, y: nat) {
    && (y / 2 != h ==> SameMark(pt, pt', y)) && (y / 2 == h ==> !Marked(pt', y))
    && (Marked(pt, y) ==> y in pt' && EntryLo(pt'[y]) == EntryLo(pt[y]) && pt'[y].present == pt[y].present)
  }

  ghost function Evicted(m: Mmu): map<nat, Pte>
    requires WellSized(m)
  {
    Unmark(Unmark(m.pt, 2 * m.hi[m.ptr]), 2 * m.hi[m.ptr] + 1)
  }

  lemma EvictedLoses(m: Mmu, y: nat)
    requires WellSized(m)
    ensures LostAt(m.pt, Evicted(m), m.hi[m.ptr], y)
  {
  }

  lemma EvictFills(m: Mmu, x: nat)
    requires WellSized(m) && x in m.pt && !Marked(m.pt, Pair(x)) && m.empty == []
    ensures var m', pt := Fill(m, x), Evicted(m);
      && Given(m, m', x, m.ptr) && m'.ptr == (m.ptr + 1) % TLBN && m'.empty == [] && m'.hi == m.hi[m.ptr := x / 2]
      && x in pt && pt[x].present == m.pt[x].present && m'.pt == pt[x := pt[x].(slot := m.ptr, inTlb := true)]
  {
  }

  /** With none left, it takes the slot of the round-robin pointer, and the pages last given that slot lose their marks. */
  lemma Evicts(m: Mmu, x: nat)
    requires WellSized(m) && Unknown(m, x) && !Marked(m.pt, Pair(x)) && m.empty == []
    requires !Marked(m.pt, x) || m.pt[x].present
    ensures var m' := Apply(m, Access(x, MAPS));
      && Given(m, m', x, m.ptr) && m'.pt[x].present && m'.ptr == (m.ptr + 1) % TLBN && m'.empty == []
      && m'.hi == m.hi[m.ptr := x / 2]
      && forall y: nat :: y != x ==> LostAt(m.pt, m'.pt, m.hi[m.ptr], y)
  {
    ReadyFills(m, x);
    var m1 := Ready(m, x);
    assert SameMark(m.pt, m1.pt, Pair(x));
    hide Apply, Fill, Ready, Unknown, Evicted, SameMark, LostAt;
    EvictFills(m1, x);
    forall y: nat | y != x ensures LostAt(m.pt, Apply(m, Access(x, MAPS)).pt, m.hi[m.ptr], y) {
      EvictedLoses(m1, y);
      LostAfter(m, m1, x, y);
    }
  }

  lemma LostAfter(m: Mmu, m1: Mmu, x: nat, y: nat)
    requires WellSized(m) && m1 == m.(pt := m1.pt) && SameMark(m.pt, m1.pt, y) && y != x
    requires LostAt(m1.pt, Evicted(m1), m.hi[m.ptr], y) && x in Evicted(m1)
    ensures LostAt(m.pt, Evicted(m1)[x := Evicted(m1)[x].(slot := m.ptr, inTlb := true)], m.hi[m.ptr], y)
  {
    hide Evicted;
  }

  /** Next to a marked page, a present page takes the slot its pair's word names, whatever is there. */
  lemma Beside(m: Mmu, x: nat, j: nat)
    requires WellSized(m) && Unknown(m, x) && Marked(m.pt, Pair(x)) && m.pt[Pair(x)].slot == j < TLBN
    requires x in m.pt && m.pt[x].present
    ensures var m' := Apply(m, Access(x, MAPS));
      && Given(m, m', x, j) && m'.ptr == m.ptr && m'.empty == m.empty && m'.hi == m.hi
      && forall y :: y != x ==> SameMark(m.pt, m'.pt, y)
  {
    UnknownMisses(m, x);
    assert Apply(m, Access(x, MAPS)) == Fill(m, x);
    hide Apply, Unknown;
  }

  // ----- Runs -----

  /** The even pages from base on, one of each pair; they are used in order. */
  function Filler(base: nat, i: nat): nat { base + 2 * i }

  /** From the n-th on, no filler is known to the TLB or to the kernel. */
  ghost predicate FreshFrom(m: Mmu, base: nat, n: nat) {
    base % 2 == 0 && forall i :: n <= i <= 2 * TLBN ==> Fresh(m, Filler(base, i))
  }

  /** n fillers have come: the first 16 - n slots are left. */
  ghost predicate Stage(m: Mmu, base: nat, n: nat) {
    && WellSized(m) && n <= TLBN && FreshFrom(m, base, n)
    && |m.empty| == TLBN - n && forall i :: 0 <= i < |m.empty| ==> m.empty[i] == i
  }

  /** Slot i holds the filler it was given, and the kernel knows. */
  ghost predicate Holds(m: Mmu, base: nat, i: nat)
    requires WellSized(m) && i < TLBN
  {
    m.slots[i].hi == Some(base / 2 + (15 - i)) && m.hi[i] == base / 2 + (15 - i)
  }

  /** Page x is present and marked, the page after it is not marked. */
  ghost predicate Alone(pt: map<nat, Pte>, x: nat) {
    Marked(pt, x) && pt[x].present && !Marked(pt, x + 1)
  }

  /** From stage n to stage k: the slots between are filled, everything else is as it was. */
  ghost predicate Filled(m: Mmu, m': Mmu, base: nat, n: nat, k: nat) {
    && WellSized(m) && WellSized(m') && n <= k <= TLBN && m'.ptr == m.ptr
    && (forall i :: TLBN - k <= i < TLBN - n ==> Holds(m', base, i))
    && (forall i :: 0 <= i < TLBN && !(TLBN - k <= i < TLBN - n) ==> m'.slots[i] == m.slots[i] && m'.hi[i] == m.hi[i])
    && (forall y: nat :: !(Filler(base, n) <= y < Filler(base, k)) ==> SameMark(m.pt, m'.pt, y))
    && (forall i :: n <= i < k ==> Alone(m'.pt, Filler(base, i)))
  }

  lemma OneFiller(m: Mmu, base: nat, n: nat)
    requires Stage(m, base, n) && n < TLBN
    ensures var m' := Apply(m, Access(Filler(base, n), MAPS)); Stage(m', base, n + 1) && Filled(m, m', base, n, n + 1)
  {
    var x := Filler(base, n);
    Pops(m, x, 15 - n);
    IsFresh(m, x);
    StageGoesOn(m, Apply(m, Access(x, MAPS)), base, n);
    OneFilled(m, Apply(m, Access(x, MAPS)), base, n);
  }

  lemma StageGoesOn(m: Mmu, m': Mmu, base: nat, n: nat)
    requires Stage(m, base, n) && n < TLBN && Given(m, m', Filler(base, n), 15 - n)
    requires m'.empty == m.empty[..|m.empty| - 1] && forall y: nat :: y != Filler(base, n) ==> SameMark(m.pt, m'.pt, y)
    ensures Stage(m', base, n + 1)
  {
    hide Fresh, SameMark, Given;
    forall i | n + 1 <= i <= 2 * TLBN ensures Fresh(m', Filler(base, i)) {
      StaysFresh(m, m', Filler(base, n), 15 - n, Filler(base, i));
    }
    GivenIsSized(m, m', Filler(base, n), 15 - n);
  }

  lemma GivenIsSized(m: Mmu, m': Mmu, x: nat, idx: nat)
    requires Given(m, m', x, idx)
    ensures WellSized(m')
  {
  }

  lemma OneFilled(m: Mmu, m': Mmu, base: nat, n: nat)
    requires n < TLBN && base % 2 == 0 && Given(m, m', Filler(base, n), 15 - n) && m'.pt[Filler(base, n)].present
    requires m'.ptr == m.ptr && m'.hi == m.hi[15 - n := Filler(base, n) / 2] && !Marked(m.pt, Filler(base, n) + 1)
    requires forall y: nat :: y != Filler(base, n) ==> SameMark(m.pt, m'.pt, y)
    ensures Filled(m, m', base, n, n + 1)
  {
    assert SameMark(m.pt, m'.pt, Filler(base, n) + 1);
    StaysUnmarked(m.pt, m'.pt, Filler(base, n) + 1);
    hide SameMark;
  }

  lemma StaysUnmarked(pt: map<nat, Pte>, pt': map<nat, Pte>, y: nat)
    requires SameMark(pt, pt', y) && !Marked(pt, y)
    ensures !Marked(pt', y)
  {
  }

  lemma IsFresh(m: Mmu, x: nat)
    requires Fresh(m, x)
    ensures Unknown(m, x) && !Marked(m.pt, x) && !Marked(m.pt, Pair(x))
  {
  }

  lemma StaysFresh(m: Mmu, m': Mmu, x: nat, idx: nat, y: nat)
    requires Fresh(m, y) && Given(m, m', x, idx) && y / 2 != x / 2
    requires SameMark(m.pt, m'.pt, y) && SameMark(m.pt, m'.pt, Pair(y))
    ensures Fresh(m', y)
  {
  }

  lemma FilledOn(a: Mmu, b: Mmu, c: Mmu, base: nat, n: nat, k: nat, l: nat)
    requires Filled(a, b, base, n, k) && Filled(b, c, base, k, l)
    ensures Filled(a, c, base, n, l)
  {
    forall i | TLBN - l <= i < TLBN - n ensures Holds(c, base, i) {
      assert i >= TLBN - k ==> Holds(b, base, i);
    }
    forall i | n <= i < l ensures Alone(c.pt, Filler(base, i)) {
      if i < k {
        assert Alone(b.pt, Filler(base, i)) && SameMark(b.pt, c.pt, Filler(base, i)) && SameMark(b.pt, c.pt, Filler(base, i) + 1);
      }
    }
    forall y: nat | !(Filler(base, n) <= y < Filler(base, l)) ensures SameMark(a.pt, c.pt, y) {
      assert SameMark(a.pt, b.pt, y) && SameMark(b.pt, c.pt, y);
    }
  }

  lemma {:induction false} Fillers(m: Mmu, base: nat, n: nat, k: nat) returns (ops: seq<Op>, m': Mmu)
    requires Stage(m, base, n) && n <= k <= TLBN
    ensures Reaches(m, ops, m') && Stage(m', base, k) && Filled(m, m', base, n, k)
    decreases k - n
  {
    if n == k {
      ops, m' := [], m;
    } else {
      OneFiller(m, base, n);
      var op := Access(Filler(base, n), MAPS);
      var m1 := Apply(m, op);
      hide Apply, Stage, Filled;
      var rest;
      rest, m' := Fillers(m1, base, n + 1, k);
      FilledOn(m, m1, m', base, n, n + 1, k);
      ops := [op] + rest;
      assert ops[1..] == rest;
    }
  }

  // ----- The run -----

  /** The stale page: it is said to be in slot j, and its pair is present. */
  ghost predicate Stale(pt: map<nat, Pte>, u: nat, j: nat) {
    Marked(pt, u) && pt[u].slot == j && Pair(u) in pt && pt[Pair(u)].present && !Marked(pt, Pair(u))
  }

  lemma StaysStale(pt: map<nat, Pte>, pt': map<nat, Pte>, u: nat, j: nat)
    requires Stale(pt, u, j) && SameMark(pt, pt', u) && SameMark(pt, pt', Pair(u))
    ensures Stale(pt', u, j)
  {
  }

  /** Every slot holds the page the kernel remembers for it, none of them below base. */
  ghost predicate Settled(m: Mmu, base: nat) {
    && WellSized(m) && m.empty == [] && base % 2 == 0
    && (forall i :: 0 <= i < TLBN ==> SettledAt(m, base, i))
    && (forall i, k :: 0 <= i < k < TLBN ==> m.hi[i] != m.hi[k])
  }

  ghost predicate SettledAt(m: Mmu, base: nat, i: nat)
    requires WellSized(m) && i < TLBN
  {
    m.slots[i].hi == Some(m.hi[i]) && m.hi[i] >= base / 2 && Alone(m.pt, 2 * m.hi[i])
  }

  /** Mapping the pair anew at the start leaves the stale mark, and at most the stale pair in a slot. */
  lemma PairMapped(m: Mmu, pt: map<nat, Pte>, u: nat)
    requires WellSized(m) && Marked(pt, u)
    ensures var m1 := PageInsert(LoadPgdir(m, pt), Pair(u), 1, true);
      && WellSized(m1) && Stale(m1.pt, u, pt[u].slot) && m1.empty == seq(TLBN, i => i)
      && (forall i :: 0 <= i < TLBN ==> m1.slots[i].hi.None? || m1.slots[i].hi.value == u / 2)
      && forall y :: y != Pair(u) ==> (Marked(m1.pt, y) <==> Marked(pt, y))
  {
    var v, m0 := Pair(u), LoadPgdir(m, pt);
    var a := m0.(pt := WithTable(m0.pt, v));
    assert forall y :: y in pt ==> y in a.pt && a.pt[y] == pt[y];
    assert Pair(v) == u && v / 2 == u / 2;
    hide WithTable;
    PairFlushed(a, u);
    var b := if a.pt[v].present && a.pt[v].ppn != 1 then PageRemovePte(a, v) else a;
    PairFlushed(b, u);
  }

  lemma PairFlushed(a: Mmu, u: nat)
    requires WellSized(a) && Marked(a.pt, u) && Pair(u) in a.pt
    ensures var m := Invalidate(a, Pair(u));
      && WellSized(m) && m.empty == a.empty && m.pt == Unmark(a.pt, Pair(u)) && m.hi == a.hi && m.ptr == a.ptr
      && forall i :: 0 <= i < TLBN ==> m.slots[i] == a.slots[i] || m.slots[i].hi == Some(u / 2)
  {
  }

  /** First the pair of the stale page is mapped, then sixteen fillers take the slots. */
  lemma Settles(m: Mmu, pt: map<nat, Pte>, u: nat, base: nat) returns (ops: seq<Op>, m': Mmu)
    requires WellSized(m) && Marked(pt, u) && base % 2 == 0 && u < base
    requires forall y :: base <= y < base + 66 ==> !Marked(pt, y)
    ensures Reaches(LoadPgdir(m, pt), ops, m')
    ensures Settled(m', base) && FreshFrom(m', base, TLBN) && Stale(m'.pt, u, pt[u].slot)
  {
    var m0, op := LoadPgdir(m, pt), Insert(Pair(u), 1, true);
    var m1 := PairFirst(m, pt, u, base);
    hide Apply, Stage, LoadPgdir, FreshFrom, Stale, Filled, Settled, Reaches, Marked;
    var o2;
    o2, m' := Fillers(m1, base, 0, TLBN);
    ops := [op] + o2;
    ReachesOn(m0, [op], m1, o2, m');
    StageIsFull(m', base);
    FilledIsSettled(m1, m', base);
    FilledKeeps(m1, m', base, u);
    StaysStale(m1.pt, m'.pt, u, pt[u].slot);
  }

  lemma PairFirst(m: Mmu, pt: map<nat, Pte>, u: nat, base: nat) returns (m1: Mmu)
    requires WellSized(m) && Marked(pt, u) && base % 2 == 0 && u < base
    requires forall y :: base <= y < base + 66 ==> !Marked(pt, y)
    ensures Reaches(LoadPgdir(m, pt), [Insert(Pair(u), 1, true)], m1)
    ensures Stage(m1, base, 0) && Stale(m1.pt, u, pt[u].slot)
  {
    var m0, op := LoadPgdir(m, pt), Insert(Pair(u), 1, true);
    PairMapped(m, pt, u);
    m1 := Apply(m0, op);
    assert m1 == PageInsert(m0, Pair(u), 1, true);
    hide PageInsert, Apply;
    assert Stage(m1, base, 0);
    hide Stage, Stale;
    ReachesOne(m0, [], m0, op);
    assert [] + [op] == [op];
  }

  lemma FilledKeeps(m: Mmu, m': Mmu, base: nat, u: nat)
    requires Filled(m, m', base, 0, TLBN) && base % 2 == 0 && u < base
    ensures SameMark(m.pt, m'.pt, u) && SameMark(m.pt, m'.pt, Pair(u))
  {
    hide SameMark, Alone;
  }

  lemma StageIsFull(m: Mmu, base: nat)
    requires Stage(m, base, TLBN)
    ensures FreshFrom(m, base, TLBN) && m.empty == []
  {
  }

  lemma FilledIsSettled(m: Mmu, m': Mmu, base: nat)
    requires Filled(m, m', base, 0, TLBN) && m'.empty == [] && base % 2 == 0
    ensures Settled(m', base)
  {
    hide Alone, SameMark;
    forall i | 0 <= i < TLBN ensures SettledAt(m', base, i) && m'.hi[i] == base / 2 + (15 - i) {
      assert Holds(m', base, i) && Alone(m'.pt, Filler(base, 15 - i));
    }
  }

  /** One more filler evicts what the pointer stands at. */
  lemma OneEviction(m: Mmu, base: nat, n: nat, u: nat, j: nat)
    requires Settled(m, base) && FreshFrom(m, base, n) && n <= 2 * TLBN && Stale(m.pt, u, j) && u < base
    ensures var m' := Apply(m, Access(Filler(base, n), MAPS));
      Settled(m', base) && FreshFrom(m', base, n + 1) && Stale(m'.pt, u, j) && m'.ptr == (m.ptr + 1) % TLBN
  {
    hide Apply, FreshFrom, Fresh, Alone, Settled, SettledAt, Stale, Given, LostAt, SameMark;
    var z := Filler(base, n);
    FillerEvicts(m, base, n);
    var m' := Apply(m, Access(z, MAPS));
    StaysSettled(m, m', base, z);
    StaleAfterEviction(m, m'.pt, base, z, u, j);
    EvictedFresh(m, m', base, n);
  }

  lemma FillerEvicts(m: Mmu, base: nat, n: nat)
    requires Settled(m, base) && FreshFrom(m, base, n) && n <= 2 * TLBN
    ensures var z := Filler(base, n); var m' := Apply(m, Access(z, MAPS));
      && base % 2 == 0 && WellSized(m) && Unknown(m, z) && !Marked(m.pt, z + 1)
      && Given(m, m', z, m.ptr) && Marked(m'.pt, z) && m'.pt[z].present
      && m'.ptr == (m.ptr + 1) % TLBN && m'.empty == [] && m'.hi == m.hi[m.ptr := z / 2]
      && forall y: nat :: y != z ==> LostAt(m.pt, m'.pt, m.hi[m.ptr], y)
  {
    hide FreshFrom, Fresh, Settled, SettledAt, Apply, LostAt, Unknown;
    SettledIs(m, base, 0, 1);
    FreshAt(m, base, n, n);
    IsFresh(m, Filler(base, n));
    Evicts(m, Filler(base, n));
  }

  lemma StaleAfterEviction(m: Mmu, pt: map<nat, Pte>, base: nat, z: nat, u: nat, j: nat)
    requires Settled(m, base) && Stale(m.pt, u, j) && u < base <= z && forall y: nat :: y != z ==> LostAt(m.pt, pt, m.hi[m.ptr], y)
    ensures Stale(pt, u, j)
  {
    SettledIs(m, base, m.ptr, m.ptr);
    hide Settled, Alone;
    assert LostAt(m.pt, pt, m.hi[m.ptr], u) && LostAt(m.pt, pt, m.hi[m.ptr], Pair(u));
    StaysStale(m.pt, pt, u, j);
  }

  lemma FreshAt(m: Mmu, base: nat, n: nat, i: nat)
    requires FreshFrom(m, base, n) && n <= i <= 2 * TLBN
    ensures Fresh(m, Filler(base, i))
  {
  }

  lemma EvictedFresh(m: Mmu, m': Mmu, base: nat, n: nat)
    requires FreshFrom(m, base, n) && n <= 2 * TLBN && WellSized(m) && Given(m, m', Filler(base, n), m.ptr)
    requires forall y: nat :: y != Filler(base, n) ==> LostAt(m.pt, m'.pt, m.hi[m.ptr], y)
    ensures FreshFrom(m', base, n + 1)
  {
    var z := Filler(base, n);
    hide Fresh, Given;
    forall i | n + 1 <= i <= 2 * TLBN ensures Fresh(m', Filler(base, i)) {
      var y := Filler(base, i);
      assert Fresh(m, y) && LostAt(m.pt, m'.pt, m.hi[m.ptr], y) && LostAt(m.pt, m'.pt, m.hi[m.ptr], y + 1);
      IsFresh(m, y);
      StillFresh(m, m', z, m.ptr, y);
    }
  }

  lemma StaysSettled(m: Mmu, m': Mmu, base: nat, z: nat)
    requires Settled(m, base) && Unknown(m, z) && z >= base && z % 2 == 0 && !Marked(m.pt, z + 1)
    requires Given(m, m', z, m.ptr) && m'.pt[z].present && m'.empty == [] && m'.hi == m.hi[m.ptr := z / 2]
    requires forall y: nat :: y != z ==> LostAt(m.pt, m'.pt, m.hi[m.ptr], y)
    ensures Settled(m', base)
  {
    hide Settled;
    assert base % 2 == 0 && WellSized(m) by { SettledIs(m, base, 0, 1); }
    forall i | 0 <= i < TLBN ensures SettledAt(m', base, i) && (i != m.ptr ==> m'.hi[i] != z / 2) {
      SettledIs(m, base, i, m.ptr);
      if i == m.ptr {
        assert LostAt(m.pt, m'.pt, m.hi[m.ptr], z + 1);
      } else {
        assert LostAt(m.pt, m'.pt, m.hi[m.ptr], 2 * m.hi[i]) && LostAt(m.pt, m'.pt, m.hi[m.ptr], 2 * m.hi[i] + 1);
      }
    }
    forall i, k | 0 <= i < k < TLBN ensures m'.hi[i] != m'.hi[k] { SettledIs(m, base, i, k); }
    hide SettledAt, LostAt, Given;
    assert Settled(m', base) by { AllSettled(m', base); }
  }

  lemma SettledIs(m: Mmu, base: nat, i: nat, k: nat)
    requires Settled(m, base) && i < TLBN && k < TLBN
    ensures base % 2 == 0 && WellSized(m) && m.empty == [] && SettledAt(m, base, i) && (i != k ==> m.hi[i] != m.hi[k])
  {
  }

  lemma AllSettled(m: Mmu, base: nat)
    requires WellSized(m) && m.empty == [] && base % 2 == 0
    requires forall i :: 0 <= i < TLBN ==> SettledAt(m, base, i)
    requires forall i, k :: 0 <= i < k < TLBN ==> m.hi[i] != m.hi[k]
    ensures Settled(m, base)
  {
  }

  lemma StillFresh(m: Mmu, m': Mmu, x: nat, idx: nat, y: nat)
    requires Fresh(m, y) && Given(m, m', x, idx) && y / 2 != x / 2 && !Marked(m'.pt, y) && !Marked(m'.pt, Pair(y))
    ensures Fresh(m', y)
  {
  }

  lemma ReachesFirst(m: Mmu, x: nat, rest: seq<Op>, m': Mmu)
    requires WellSized(m) && Reaches(Apply(m, Access(x, MAPS)), rest, m')
    ensures Reaches(m, [Access(x, MAPS)] + rest, m')
  {
    hide Apply, Lookup;
    var ops := [Access(x, MAPS)] + rest;
    assert ops[0] == Access(x, MAPS) && ops[1..] == rest;
  }

  /** k evictions. */
  lemma {:induction false} Evictions(m: Mmu, base: nat, n: nat, u: nat, j: nat, k: nat) returns (ops: seq<Op>, m': Mmu)
    requires Settled(m, base) && FreshFrom(m, base, n) && Stale(m.pt, u, j) && u < base && n + k <= 2 * TLBN
    ensures Reaches(m, ops, m')
    ensures Settled(m', base) && FreshFrom(m', base, n + k) && Stale(m'.pt, u, j) && m'.ptr == (m.ptr + k) % TLBN
    decreases k
  {
    hide Apply, FreshFrom, Stale, Settled, Possible;
    SettledIs(m, base, 0, 1);
    if k == 0 {
      ops, m' := [], m;
    } else {
      var op := Access(Filler(base, n), MAPS);
      OneEviction(m, base, n, u, j);
      var rest;
      rest, m' := Evictions(Apply(m, op), base, n + 1, u, j, k - 1);
      ops := [op] + rest;
      ReachesFirst(m, Filler(base, n), rest, m');
    }
  }

  /** The pointer is brought just before slot j. */
  lemma PointerComes(m: Mmu, base: nat, u: nat, j: nat) returns (ops: seq<Op>, m': Mmu)
    requires Settled(m, base) && FreshFrom(m, base, TLBN) && Stale(m.pt, u, j) && u < base && j < TLBN
    ensures Reaches(m, ops, m')
    ensures Settled(m', base) && FreshFrom(m', base, 2 * TLBN) && Stale(m'.pt, u, j) && m'.ptr == (j + 15) % TLBN
  {
    hide Settled, FreshFrom, Stale, Reaches;
    SettledIs(m, base, 0, 1);
    var k := if m.ptr < j then j - 1 - m.ptr else j + 15 - m.ptr;
    ops, m' := Evictions(m, base, TLBN, u, j, k);
    FreshLater(m', base, TLBN + k, 2 * TLBN);
  }

  lemma FreshLater(m: Mmu, base: nat, n: nat, k: nat)
    requires FreshFrom(m, base, n) && n <= k
    ensures FreshFrom(m, base, k)
  {
    hide Fresh;
  }

  /** Only slot i answers for the pair of w. */
  ghost predicate OnlyAt(m: Mmu, w: nat, i: nat) {
    forall k :: 0 <= k < |m.slots| && k != i ==> m.slots[k].hi != Some(w / 2)
  }

  /** Page w has lost slot j to the stale pair, but its word and the kernel still say slot j; z is still to come. */
  ghost predicate Robbed(m: Mmu, w: nat, z: nat, j: nat) {
    && j < TLBN && WellSized(m) && m.ptr == (j + 15) % TLBN && m.empty == [] && m.hi[j] == w / 2 && w % 2 == 0
    && Unknown(m, w) && Alone(m.pt, w) && Fresh(m, z) && w / 2 != z / 2 && z % 2 == 0
  }

  /** The pair of the stale page is sent to slot j. */
  lemma PairRobs(m: Mmu, base: nat, u: nat, j: nat)
    requires Settled(m, base) && FreshFrom(m, base, 2 * TLBN) && Stale(m.pt, u, j) && u < base && j < TLBN
    requires m.ptr == (j + 15) % TLBN
    ensures Robbed(Apply(m, Access(Pair(u), MAPS)), 2 * m.hi[j], Filler(base, 2 * TLBN), j)
  {
    var x, w, z := Pair(u), 2 * m.hi[j], Filler(base, 2 * TLBN);
    assert Pair(x) == u && x / 2 == u / 2;
    forall i | 0 <= i < TLBN ensures m.slots[i].hi != Some(x / 2) && (i != j ==> m.slots[i].hi != Some(w / 2)) {
      assert SettledAt(m, base, i);
    }
    Beside(m, x, j);
    var m' := Apply(m, Access(x, MAPS));
    assert SettledAt(m, base, j) && Fresh(m, z) && SameMark(m.pt, m'.pt, w) && SameMark(m.pt, m'.pt, w + 1);
    hide Apply, Settled;
    IsFresh(m, z);
    assert SameMark(m.pt, m'.pt, z) && SameMark(m.pt, m'.pt, z + 1);
    StillFresh(m, m', x, j, z);
  }

  /** Back in by eviction from the slot before j, page w has slot p and the kernel believes it has slot j too. */
  ghost predicate Doubled(m: Mmu, w: nat, z: nat, j: nat, p: nat) {
    && j < TLBN && WellSized(m) && m.empty == [] && m.ptr == j && m.hi[j] == w / 2 && w % 2 == 0
    && p < TLBN && p != j && m.slots[p].hi == Some(w / 2) && OnlyAt(m, w, p)
    && Alone(m.pt, w) && m.slots[p].lo0 == EntryLo(m.pt[w]) && Fresh(m, z) && w / 2 != z / 2 && z % 2 == 0
  }

  lemma EvictsForVictim(m: Mmu, w: nat, z: nat, j: nat)
    requires Robbed(m, w, z, j)
    ensures Doubled(Apply(m, Access(w, MAPS)), w, z, j, (j + 15) % TLBN)
  {
    var p := (j + 15) % TLBN;
    Evicts(m, w);
    var m' := Apply(m, Access(w, MAPS));
    hide Apply;
    assert LostAt(m.pt, m'.pt, m.hi[p], w + 1) && LostAt(m.pt, m'.pt, m.hi[p], z) && LostAt(m.pt, m'.pt, m.hi[p], z + 1);
    hide LostAt;
    hide Fresh;
    assert Fresh(m', z) by { IsFresh(m, z); StillFresh(m, m', w, p, z); }
  }

  /** The next eviction takes the mark of page w, and its entry stays. */
  lemma VictimLosesMark(m: Mmu, w: nat, z: nat, j: nat, p: nat)
    requires Doubled(m, w, z, j, p)
    ensures var m' := Apply(m, Access(z, MAPS));
      && WellSized(m') && w in m'.pt && m'.pt[w].present && !Marked(m'.pt, w)
      && m'.slots[p].hi == Some(w / 2) && OnlyAt(m', w, p) && m'.slots[p].lo0 == EntryLo(m'.pt[w])
  {
    IsFresh(m, z);
    Evicts(m, z);
    var m' := Apply(m, Access(z, MAPS));
    hide Apply, Fresh;
    assert LostAt(m.pt, m'.pt, m.hi[j], w);
  }

  /** Then page w is given a new frame, which the TLB does not learn of. */
  lemma VictimMisleads(m: Mmu, w: nat, z: nat, j: nat, p: nat) returns (ops: seq<Op>, m': Mmu)
    requires Doubled(m, w, z, j, p)
    ensures Reaches(m, ops, m') && WellSized(m')
    ensures w in m'.pt && Lookup(m', w) != Invalid && Lookup(m', w) != EntryLo(m'.pt[w])
  {
    assert WellSized(m) && p < TLBN && w % 2 == 0;
    VictimLosesMark(m, w, z, j, p);
    var m7 := Apply(m, Access(z, MAPS));
    var ppn: bv32 := if m7.pt[w].ppn == 1 then 2 else 1;
    m' := PageInsert(m7, w, ppn, true);
    assert Apply(m7, Insert(w, ppn, true)) == m';
    hide Apply, Doubled, PageInsert;
    Remaps(m7, w, ppn);
    ReachesOne(m, [], m, Access(z, MAPS));
    assert [] + [Access(z, MAPS)] == [Access(z, MAPS)];
    ops := [Access(z, MAPS)] + [Insert(w, ppn, true)];
    ReachesOne(m, [Access(z, MAPS)], m7, Insert(w, ppn, true));
    FindIs(m'.slots, w, 0, p);
  }

  lemma Remaps(m: Mmu, w: nat, ppn: bv32)
    requires w in m.pt && m.pt[w].present && !Marked(m.pt, w) && m.pt[w].ppn != ppn
    ensures var m' := PageInsert(m, w, ppn, true);
      m' == m.(pt := m'.pt) && w in m'.pt && m'.pt[w].ppn == ppn
  {
  }

  /** From the pointer just before slot j: the stale pair, its victim, one more filler, and the victim remapped. */
  lemma EndsMisled(m: Mmu, base: nat, u: nat, j: nat) returns (ops: seq<Op>, m': Mmu, w: nat)
    requires Settled(m, base) && FreshFrom(m, base, 2 * TLBN) && Stale(m.pt, u, j) && u < base && j < TLBN
    requires m.ptr == (j + 15) % TLBN
    ensures Reaches(m, ops, m') && WellSized(m')
    ensures w in m'.pt && Lookup(m', w) != Invalid && Lookup(m', w) != EntryLo(m'.pt[w])
  {
    assert WellSized(m);
    w := 2 * m.hi[j];
    var z := Filler(base, 2 * TLBN);
    PairRobs(m, base, u, j);
    var m5 := Apply(m, Access(Pair(u), MAPS));
    EvictsForVictim(m5, w, z, j);
    assert WellSized(m5);
    var m6 := Apply(m5, Access(w, MAPS));
    hide Apply, Settled, FreshFrom, Stale, Robbed, Doubled;
    ReachesOne(m, [], m, Access(Pair(u), MAPS));
    var o5 := [] + [Access(Pair(u), MAPS)];
    ReachesOne(m, o5, m5, Access(w, MAPS));
    var o7;
    o7, m' := VictimMisleads(m6, w, z, j, (j + 15) % TLBN);
    ops := o5 + [Access(w, MAPS)] + o7;
    ReachesOn(m, o5 + [Access(w, MAPS)], m6, o7, m');
  }

  /** One stale mark is enough, in whatever state the table is loaded, whatever slot the mark names and whatever else the
      table holds, given 33 page pairs that are not marked: some run makes the hardware translate a page otherwise than
      its word says. */
  lemma StaleMarkMisleads(m: Mmu, pt: map<nat, Pte>, u: nat, base: nat) returns (ops: seq<Op>, m': Mmu, v: nat)
    requires WellSized(m) && Marked(pt, u) && pt[u].slot < TLBN && base % 2 == 0 && u < base
    requires forall y :: base <= y < base + 66 ==> !Marked(pt, y)
    ensures Reaches(LoadPgdir(m, pt), ops, m') && WellSized(m')
    ensures v in m'.pt && Lookup(m', v) != Invalid && Lookup(m', v) != EntryLo(m'.pt[v])
  {
    hide Settled, FreshFrom, Stale, LoadPgdir, Reaches;
    var j, start := pt[u].slot, LoadPgdir(m, pt);
    var o3, m3 := Settles(m, pt, u, base);
    var o4, m4 := PointerComes(m3, base, u, j);
    var o7;
    o7, m', v := EndsMisled(m4, base, u, j);
    ReachesOn(start, o3, m3, o4, m4);
    ReachesOn(start, o3 + o4, m4, o7, m');
    ops := o3 + o4 + o7;
  }

  // ----- Exactly when an epoch is coherent -----

  ghost predicate Coherent(m: Mmu) {
    forall v :: Lookup(m, v) != Invalid ==> v in m.pt && Lookup(m, v) == EntryLo(m.pt[v])
  }

  /** No run that follows load_pgdir in this state finds a wrong translation. */
  ghost predicate Safe(m: Mmu, pt: map<nat, Pte>) {
    forall ops, m' :: Reaches(LoadPgdir(m, pt), ops, m') ==> Coherent(m')
  }

  lemma {:induction false} SomeBound(s: set<nat>) returns (b: nat)
    ensures b % 2 == 0 && forall x :: x in s ==> x < b
  {
    if s == {} {
      b := 0;
    } else {
      var x :| x in s;
      var c := SomeBound(s - {x});
      b := if x < c then c else x + 2 - x % 2;
      assert s == (s - {x}) + {x};
    }
  }

  /** Whatever state a table is loaded in, no run after that ever finds a wrong translation if and only if the table
      carries no mark; slot numbers in words have four bits. */
  lemma SafeIffUnmarked(m: Mmu, pt: map<nat, Pte>)
    requires WellSized(m) && forall v :: Marked(pt, v) ==> pt[v].slot < TLBN
    ensures Safe(m, pt) <==> forall v :: !Marked(pt, v)
  {
    if forall v :: !Marked(pt, v) {
      forall ops, m' | Reaches(LoadPgdir(m, pt), ops, m') ensures Coherent(m') {
        forall v | Lookup(m', v) != Invalid ensures v in m'.pt && Lookup(m', v) == EntryLo(m'.pt[v]) {
          EpochIsCoherent(m, pt, ops, m', v);
        }
      }
    } else {
      var u :| Marked(pt, u);
      var base := SomeBound(pt.Keys);
      var ops, m', v := StaleMarkMisleads(m, pt, u, base);
      assert !Coherent(m');
    }
  }

  /** So a table that leaves in state m and comes back in state n, whatever went on in between while others were loaded,
      is safe there exactly if nothing was in the TLB when it left. */
  lemma ReloadIsSafeIff(m: Mmu, n: Mmu)
    requires Inv(m) && WellSized(n)
    ensures Safe(n, m.pt) <==> forall v :: Lookup(m, v) == Invalid
  {
    hide Safe;
    forall v | Marked(m.pt, v) ensures m.pt[v].slot < TLBN { assert PageOk(m, v); }
    SafeIffUnmarked(n, m.pt);
    forall v ensures Marked(m.pt, v) <==> Lookup(m, v) != Invalid { TlbIsCache(m, v); }
  }
}
