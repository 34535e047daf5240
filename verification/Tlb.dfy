/** The software-managed TLB as a cache of the current page table. Pages are virtual page numbers; a page and its pair
    share one slot, whose halves are numbered 0 (even page) and 1 (odd page). */
module Tlb {
  import opened TlbWords

  datatype Option<+T> = None | Some(value: T)

  const TLBN: nat := 16
  const NPTEENTRY: nat := 1024

  /** hi is the virtual page pair the slot answers for; None is the address the hardware never looks up. */
  datatype Slot = Slot(hi: Option<nat>, lo0: Lo, lo1: Lo)

  const EmptySlot := Slot(None, Invalid, Invalid)

  function Half(s: Slot, h: nat): Lo { if h == 0 then s.lo0 else s.lo1 }

  function SetHalf(s: Slot, h: nat, lo: Lo): Slot { if h == 0 then s.(lo0 := lo) else s.(lo1 := lo) }

  function Pair(v: nat): nat { if v % 2 == 0 then v + 1 else v - 1 }

  /** The page table in use (a page is a key when its second-level table exists), the TLB, and the replacement state:
      the stack of empty slots, the pair each slot was last given to, and the round-robin pointer. */
  datatype Mmu = Mmu(pt: map<nat, Pte>, slots: seq<Slot>, empty: seq<nat>, hi: seq<nat>, ptr: nat)

  // ----- Operations -----

  /** load_pgdir: another page table, and the TLB reset; the words of the table are left as they are. */
  function LoadPgdir(m: Mmu, pt: map<nat, Pte>): Mmu {
    m.(pt := pt, slots := seq(TLBN, _ => EmptySlot), empty := seq(TLBN, i => i))
  }

  function Unmark(pt: map<nat, Pte>, v: nat): map<nat, Pte> {
    if v in pt then pt[v := pt[v].(inTlb := false)] else pt
  }

  predicate Marked(pt: map<nat, Pte>, v: nat) { v in pt && pt[v].inTlb }

  predicate WellSized(m: Mmu) {
    |m.slots| == |m.hi| == TLBN && m.ptr < TLBN
  }

  /** A free slot for a page pair, evicting round robin when there is none. */
  function GetEmpty(m: Mmu, hi: nat): (r: (Mmu, nat))
    requires WellSized(m)
  {
    if |m.empty| > 0 then
      var idx := m.empty[|m.empty| - 1];
      (m.(empty := m.empty[..|m.empty| - 1], hi := if idx < TLBN then m.hi[idx := hi] else m.hi), idx)
    else
      var idx, old' := m.ptr, m.hi[m.ptr];
      (m.(ptr := (m.ptr + 1) % TLBN, pt := Unmark(Unmark(m.pt, 2 * old'), 2 * old' + 1), hi := m.hi[idx := hi]), idx)
  }

  function Write(m: Mmu, idx: nat, s: Slot): Mmu {
    if idx < |m.slots| then m.(slots := m.slots[idx := s]) else m
  }

  /** The part of the miss handler after the page fault: put page v into the TLB. */
  function Fill(m: Mmu, v: nat): Mmu
    requires WellSized(m) && v in m.pt
  {
    var v2 := Pair(v);
    var lo := EntryLo(m.pt[v]);
    if Marked(m.pt, v2) then
      var idx := m.pt[v2].slot;
      var s := SetHalf(SetHalf(Slot(Some(v / 2), Invalid, Invalid), v % 2, lo), v2 % 2, EntryLo(m.pt[v2]));
      var m1 := Write(m, idx, s);
      m1.(pt := m1.pt[v := m1.pt[v].(slot := idx, inTlb := true)])
    else
      var (m0, idx) := GetEmpty(m, v / 2);
      var m1 := Write(m0, idx, SetHalf(Slot(Some(v / 2), Invalid, Invalid), v % 2, lo));
      m1.(pt := m1.pt[v := m1.pt[v].(slot := idx, inTlb := true)])
  }

  /** tlb_invalidate on the page table in use; on any other page table it does nothing. */
  function Invalidate(m: Mmu, v: nat): Mmu {
    if !Marked(m.pt, v) then m else
    var idx, v2 := m.pt[v].slot, Pair(v);
    var m1 :=
      if Marked(m.pt, v2) then
        Write(m, idx, SetHalf(Slot(Some(v / 2), Invalid, Invalid), v2 % 2, EntryLo(m.pt[v2])))
      else
        Write(m, idx, EmptySlot).(empty := m.empty + [idx]);
    m1.(pt := Unmark(m1.pt, v))
  }

  function PageRemovePte(m: Mmu, v: nat): Mmu
    requires v in m.pt
  {
    if m.pt[v].present then
      var m1 := Invalidate(m, v);
      m1.(pt := m1.pt[v := ZeroPte])
    else m
  }

  /** get_pte with create: a missing second-level table appears, all zero. */
  function WithTable(pt: map<nat, Pte>, v: nat): (r: map<nat, Pte>)
    ensures v in r
  {
    if v in pt then pt
    else
      var first := v / NPTEENTRY * NPTEENTRY;
      (map w | first <= w < first + NPTEENTRY && w !in pt :: ZeroPte) + pt
  }

  function PageInsert(m: Mmu, v: nat, ppn: bv32, dirty: bool): Mmu {
    var m0 := m.(pt := WithTable(m.pt, v));
    var m1 := if m0.pt[v].present && m0.pt[v].ppn != ppn then PageRemovePte(m0, v) else m0;
    var m2 := Invalidate(m1, v);
    m2.(pt := m2.pt[v := Pte(ppn, dirty, true, 0, false)])
  }

  function PageRemove(m: Mmu, v: nat): Mmu {
    if v in m.pt then PageRemovePte(m, v) else m
  }

  predicate Absent(pt: map<nat, Pte>, v: nat) { v !in pt || !pt[v].present }

  /** How the page fault raised by a miss ends: it fails; there is no memory for a second-level table that is missing,
      which get_pte does not check, and the kernel goes no further; there is none for the page, which do_pgfault does not
      report; or a page is mapped. */
  datatype Fault = Refused | NoTable | NoMemory | Mapped(ppn: bv32, dirty: bool)

  /** Only for an empty word, or none, does do_pgfault go on without a page. */
  predicate MayEnd(pt: map<nat, Pte>, v: nat, fault: Fault) {
    match fault
    case NoTable => v !in pt
    case NoMemory => v !in pt || pt[v] == ZeroPte
    case _ => true
  }

  /** The page table and the TLB when the fault is over. */
  function Faulted(m: Mmu, v: nat, fault: Fault): Mmu {
    match fault
    case NoMemory => m.(pt := WithTable(m.pt, v))
    case Mapped(ppn, dirty) => PageInsert(m, v, ppn, dirty)
    case _ => m
  }

  function Miss(m: Mmu, v: nat, fault: Fault): Mmu
    requires WellSized(m)
  {
    if !Absent(m.pt, v) then Fill(m, v)
    else if fault == Refused || fault == NoTable then m
    else Fill(Faulted(m, v, fault), v)
  }

  // ----- The hardware's view -----

  /** The half the hardware finds for page v from slot i on. */
  function Find(slots: seq<Slot>, v: nat, i: nat): Lo
    decreases |slots| - i
  {
    if i >= |slots| then Invalid
    else if slots[i].hi == Some(v / 2) then Half(slots[i], v % 2)
    else Find(slots, v, i + 1)
  }

  function Lookup(m: Mmu, v: nat): Lo { Find(m.slots, v, 0) }

  // ----- The invariant of an epoch -----

  /** A page marked in the TLB is where it says, with the word's own contents. */
  ghost predicate PageOk(m: Mmu, v: nat)
    requires WellSized(m)
  {
    Marked(m.pt, v) ==>
      var i := m.pt[v].slot;
      && i < TLBN && m.slots[i].hi == Some(v / 2) && m.hi[i] == v / 2
      && Half(m.slots[i], v % 2) == EntryLo(m.pt[v])
      && (Marked(m.pt, Pair(v)) ==> m.pt[Pair(v)].slot == i)
  }

  /** A valid half belongs to a page marked with this slot; a slot is on the stack exactly when both halves are empty. */
  ghost predicate SlotOk(m: Mmu, i: nat)
    requires WellSized(m) && i < TLBN
  {
    var s := m.slots[i];
    && (s.lo0.Valid? ==> s.hi.Some? && Marked(m.pt, 2 * s.hi.value) && m.pt[2 * s.hi.value].slot == i)
    && (s.lo1.Valid? ==> s.hi.Some? && Marked(m.pt, 2 * s.hi.value + 1) && m.pt[2 * s.hi.value + 1].slot == i)
    && (i in m.empty <==> s.lo0 == s.lo1 == Invalid)
    && (i in m.empty ==> s.hi.None?)
  }

  ghost predicate Inv(m: Mmu) {
    && WellSized(m)
    && (forall v :: PageOk(m, v))
    && (forall i :: 0 <= i < TLBN ==> SlotOk(m, i))
    && (forall i :: 0 <= i < |m.empty| ==> m.empty[i] < TLBN)
    && (forall i, j :: 0 <= i < j < |m.empty| ==> m.empty[i] != m.empty[j])
  }

  lemma {:induction false} EmptyAfterLoad(n: nat, i: nat)
    ensures i in seq(n, k => k) <==> i < n
  {
    if i < n { assert seq(n, k => k)[i] == i; }
  }

  /** The epoch starts in order exactly when the new page table carries no mark from an earlier one. */
  lemma LoadStartsEpoch(m: Mmu, pt: map<nat, Pte>)
    requires WellSized(m)
    ensures Inv(LoadPgdir(m, pt)) <==> forall v :: !Marked(pt, v)
  {
    var m' := LoadPgdir(m, pt);
    if forall v :: !Marked(pt, v) {
      forall i | 0 <= i < TLBN ensures SlotOk(m', i) { EmptyAfterLoad(TLBN, i); }
      forall v ensures PageOk(m', v) {}
    } else {
      var v :| Marked(pt, v);
      assert !PageOk(m', v);
    }
  }

  lemma FillKeeps(m: Mmu, v: nat)
    requires Inv(m) && v in m.pt && !m.pt[v].inTlb
    ensures Inv(Fill(m, v))
  {
    var m' := Fill(m, v);
    assert PageOk(m, Pair(v));
    if Marked(m.pt, Pair(v)) {
      FillBeside(m, v);
    } else {
      FillFresh(m, v);
    }
  }

  lemma FillBeside(m: Mmu, v: nat)
    requires Inv(m) && v in m.pt && !m.pt[v].inTlb && Marked(m.pt, Pair(v))
    ensures Inv(Fill(m, v))
  {
    var m' := Fill(m, v);
    var idx := m.pt[Pair(v)].slot;
    assert PageOk(m, Pair(v)) && SlotOk(m, idx);
    forall w ensures PageOk(m', w) { assert PageOk(m, w); }
    forall i | 0 <= i < TLBN ensures SlotOk(m', i) { assert SlotOk(m, i); }
  }

  /** Of the words, only the marks of slot idx are gone. */
  ghost predicate Released(pt: map<nat, Pte>, pt': map<nat, Pte>, idx: nat) {
    && pt'.Keys == pt.Keys
    && forall w :: w in pt ==> pt'[w] == if pt[w].inTlb && pt[w].slot == idx then pt[w].(inTlb := false) else pt[w]
  }

  lemma PopFrees(m: Mmu, idx: nat)
    requires Inv(m) && idx in m.empty
    ensures Released(m.pt, m.pt, idx)
  {
    assert idx < TLBN && SlotOk(m, idx);
    forall w | w in m.pt ensures !(m.pt[w].inTlb && m.pt[w].slot == idx) { assert PageOk(m, w); }
  }

  lemma EvictFrees(m: Mmu)
    requires Inv(m) && m.empty == []
    ensures var old' := m.hi[m.ptr]; Released(m.pt, Unmark(Unmark(m.pt, 2 * old'), 2 * old' + 1), m.ptr)
  {
    var idx, old' := m.ptr, m.hi[m.ptr];
    assert SlotOk(m, idx);
    var s := m.slots[idx];
    var u := 2 * s.hi.value + if s.lo0.Valid? then 0 else 1;
    assert PageOk(m, u) && s.hi.value == old';
    forall w | w in m.pt
      ensures m.pt[w].inTlb && m.pt[w].slot == idx <==> m.pt[w].inTlb && (w == 2 * old' || w == 2 * old' + 1)
    {
      assert PageOk(m, w);
    }
  }

  /** The slot handed out holds no marked page any more, and no other mark is lost. */
  lemma GetEmptyFrees(m: Mmu, hi: nat)
    requires Inv(m)
    ensures var (m0, idx) := GetEmpty(m, hi);
            && idx < TLBN && WellSized(m0) && m0.slots == m.slots && m0.hi == m.hi[idx := hi]
            && (m.empty != [] ==> m0.empty == m.empty[..|m.empty| - 1] && idx == m.empty[|m.empty| - 1])
            && (m.empty == [] ==> m0.empty == [] && idx == m.ptr && m0.ptr == if m.ptr == 15 then 0 else m.ptr + 1)
            && (m.empty != [] ==> m0.ptr == m.ptr)
            && Released(m.pt, m0.pt, idx)
  {
    if m.empty != [] { PopFrees(m, m.empty[|m.empty| - 1]); } else { EvictFrees(m); }
    hide PageOk, SlotOk, Released;
  }

  /** Page v was given the whole slot idx, which took the marks of whatever was there. */
  ghost predicate Refilled(m: Mmu, m': Mmu, v: nat, idx: nat) {
    && WellSized(m) && WellSized(m') && idx < TLBN && v in m.pt
    && m'.slots == m.slots[idx := SetHalf(Slot(Some(v / 2), Invalid, Invalid), v % 2, EntryLo(m.pt[v]))]
    && m'.hi == m.hi[idx := v / 2]
    && v in m'.pt && m'.pt[v] == m.pt[v].(slot := idx, inTlb := true)
    && (forall w :: w != v ==> (Marked(m'.pt, w) <==> Marked(m.pt, w) && m.pt[w].slot != idx))
    && (forall w :: w != v && Marked(m'.pt, w) ==> m'.pt[w] == m.pt[w])
    && (forall i :: i in m'.empty <==> i in m.empty && i != idx)
  }

  lemma EmptyIsDistinct(m: Mmu)
    requires Inv(m)
    ensures WellSized(m) && forall i, j :: 0 <= i < j < |m.empty| ==> m.empty[i] != m.empty[j]
  {
  }

  lemma FillRefills(m: Mmu, v: nat)
    requires Inv(m) && v in m.pt && !m.pt[v].inTlb && !Marked(m.pt, Pair(v))
    ensures Refilled(m, Fill(m, v), v, GetEmpty(m, v / 2).1)
    ensures forall i :: 0 <= i < |Fill(m, v).empty| ==> i < |m.empty| && Fill(m, v).empty[i] == m.empty[i]
  {
    hide GetEmpty, PageOk, SlotOk, Inv;
    GetEmptyFrees(m, v / 2);
    EmptyIsDistinct(m);
    var (m0, idx) := GetEmpty(m, v / 2);
    forall i ensures m.empty != [] ==> (i in m0.empty <==> i in m.empty && i != idx) { DroppedLast(m.empty, idx, i); }
  }

  lemma RefilledPage(m: Mmu, m': Mmu, v: nat, idx: nat, w: nat)
    requires Refilled(m, m', v, idx) && !Marked(m.pt, v) && !Marked(m.pt, Pair(v)) && PageOk(m, w)
    ensures PageOk(m', w)
  {
  }

  lemma RefilledSlot(m: Mmu, m': Mmu, v: nat, idx: nat, i: nat)
    requires Refilled(m, m', v, idx) && !Marked(m.pt, v) && i < TLBN && SlotOk(m, i)
    ensures SlotOk(m', i)
  {
  }

  lemma FillFresh(m: Mmu, v: nat)
    requires Inv(m) && v in m.pt && !m.pt[v].inTlb && !Marked(m.pt, Pair(v))
    ensures Inv(Fill(m, v))
  {
    FillRefills(m, v);
    var m', idx := Fill(m, v), GetEmpty(m, v / 2).1;
    hide Fill, GetEmpty, Refilled, PageOk, SlotOk;
    forall w ensures PageOk(m', w) { RefilledPage(m, m', v, idx, w); }
    forall i | 0 <= i < TLBN ensures SlotOk(m', i) { RefilledSlot(m, m', v, idx, i); }
  }

  lemma DroppedLast(s: seq<nat>, last: nat, i: nat)
    requires forall j, k :: 0 <= j < k < |s| ==> s[j] != s[k]
    requires s != [] ==> last == s[|s| - 1]
    ensures s != [] ==> (i in s[..|s| - 1] <==> i in s && i != last)
  {
  }

  lemma InvalidateKeeps(m: Mmu, v: nat)
    requires Inv(m)
    ensures Inv(Invalidate(m, v)) && !Marked(Invalidate(m, v).pt, v)
  {
    var m' := Invalidate(m, v);
    assert PageOk(m, v) && PageOk(m, Pair(v));
    if Marked(m.pt, v) {
      assert SlotOk(m, m.pt[v].slot);
      forall w ensures PageOk(m', w) { assert PageOk(m, w); }
      forall i | 0 <= i < TLBN ensures SlotOk(m', i) { assert SlotOk(m, i); }
    }
  }

  /** Words of pages that are not marked may change freely. */
  lemma UnmarkedMayChange(m: Mmu, pt: map<nat, Pte>)
    requires Inv(m) && forall v :: Marked(pt, v) || Marked(m.pt, v) ==> v in pt && v in m.pt && pt[v] == m.pt[v]
    ensures Inv(m.(pt := pt))
  {
    var m' := m.(pt := pt);
    forall w ensures PageOk(m', w) { assert PageOk(m, w); }
    forall i | 0 <= i < TLBN ensures SlotOk(m', i) { assert SlotOk(m, i); }
  }

  lemma RemoveKeeps(m: Mmu, v: nat)
    requires Inv(m) && v in m.pt
    ensures Inv(PageRemovePte(m, v))
    ensures m.pt[v].present ==> PageRemovePte(m, v).pt[v] == ZeroPte
  {
    if m.pt[v].present {
      InvalidateKeeps(m, v);
      var m1 := Invalidate(m, v);
      UnmarkedMayChange(m1, m1.pt[v := ZeroPte]);
    }
  }

  lemma TableKeeps(m: Mmu, v: nat)
    requires Inv(m)
    ensures Inv(m.(pt := WithTable(m.pt, v)))
    ensures forall w :: Marked(WithTable(m.pt, v), w) ==> w in m.pt
  {
    var pt := WithTable(m.pt, v);
    assert forall w :: w in m.pt ==> w in pt && pt[w] == m.pt[w];
    UnmarkedMayChange(m, pt);
  }

  lemma InsertKeeps(m: Mmu, v: nat, ppn: bv32, dirty: bool)
    requires Inv(m)
    ensures var m' := PageInsert(m, v, ppn, dirty); Inv(m') && v in m'.pt && m'.pt[v] == Pte(ppn, dirty, true, 0, false)
  {
    TableKeeps(m, v);
    var m0 := m.(pt := WithTable(m.pt, v));
    var m1 := if m0.pt[v].present && m0.pt[v].ppn != ppn then PageRemovePte(m0, v) else m0;
    RemoveKeeps(m0, v);
    InvalidateKeeps(m1, v);
    var m2 := Invalidate(m1, v);
    UnmarkedMayChange(m2, m2.pt[v := Pte(ppn, dirty, true, 0, false)]);
  }

  lemma FaultKeeps(m: Mmu, v: nat, fault: Fault)
    requires Inv(m) && !Marked(m.pt, v)
    ensures var m' := Faulted(m, v, fault);
      Inv(m') && !Marked(m'.pt, v) && (fault.NoMemory? || fault.Mapped? ==> v in m'.pt)
  {
    if fault.NoMemory? { TableKeeps(m, v); }
    if fault.Mapped? { InsertKeeps(m, v, fault.ppn, fault.dirty); }
  }

  /** A miss: the hardware found nothing for v, so v carries no mark, and the handler keeps everything in order. */
  lemma MissKeeps(m: Mmu, v: nat, fault: Fault)
    requires Inv(m) && Lookup(m, v) == Invalid
    ensures Inv(Miss(m, v, fault))
  {
    NoMarkWithoutHit(m, v);
    if !Absent(m.pt, v) {
      FillKeeps(m, v);
    } else if fault.NoMemory? || fault.Mapped? {
      FaultKeeps(m, v, fault);
      FillKeeps(Faulted(m, v, fault), v);
    }
  }

  // ----- What the invariant says to the hardware -----

  /** No two slots answer for the same page pair. */
  lemma NoDoubleMatch(m: Mmu, i: nat, j: nat)
    requires Inv(m) && i < TLBN && j < TLBN && m.slots[i].hi.Some? && m.slots[i].hi == m.slots[j].hi
    ensures i == j
  {
    assert SlotOk(m, i) && SlotOk(m, j);
    var h := m.slots[i].hi.value;
    assert PageOk(m, 2 * h) && PageOk(m, 2 * h + 1);
  }

  lemma {:induction false} FindIs(slots: seq<Slot>, v: nat, i: nat, k: nat)
    requires i <= k < |slots| && slots[k].hi == Some(v / 2)
    requires forall j :: i <= j < k ==> slots[j].hi != Some(v / 2)
    ensures Find(slots, v, i) == Half(slots[k], v % 2)
    decreases k - i
  {
    if i < k { FindIs(slots, v, i + 1, k); }
  }

  lemma {:induction false} FindFinds(slots: seq<Slot>, v: nat, i: nat) returns (k: nat)
    requires i <= |slots| && Find(slots, v, i) != Invalid
    ensures i <= k < |slots| && slots[k].hi == Some(v / 2) && Find(slots, v, i) == Half(slots[k], v % 2)
    decreases |slots| - i
  {
    if slots[i].hi == Some(v / 2) {
      k := i;
    } else {
      k := FindFinds(slots, v, i + 1);
    }
  }

  lemma MarkedIsFound(m: Mmu, v: nat)
    requires Inv(m) && Marked(m.pt, v)
    ensures Lookup(m, v) == EntryLo(m.pt[v])
  {
    assert PageOk(m, v);
    var k := m.pt[v].slot;
    forall j | 0 <= j < k ensures m.slots[j].hi != Some(v / 2) {
      if m.slots[j].hi == Some(v / 2) { NoDoubleMatch(m, j, k); }
    }
    FindIs(m.slots, v, 0, k);
  }

  lemma NoMarkWithoutHit(m: Mmu, v: nat)
    requires Inv(m) && Lookup(m, v) == Invalid
    ensures !Marked(m.pt, v)
  {
    if Marked(m.pt, v) { MarkedIsFound(m, v); }
  }

  lemma HitIsMarked(m: Mmu, v: nat)
    requires Inv(m) && Lookup(m, v) != Invalid
    ensures Marked(m.pt, v)
  {
    var k := FindFinds(m.slots, v, 0);
    assert SlotOk(m, k);
  }

  /** The TLB is a cache of the page table: it answers for a page exactly when the page's word is marked, and then with
      that word's own frame and write permission. */
  lemma TlbIsCache(m: Mmu, v: nat)
    requires Inv(m)
    ensures Lookup(m, v) == if Marked(m.pt, v) then EntryLo(m.pt[v]) else Invalid
  {
    if Marked(m.pt, v) {
      MarkedIsFound(m, v);
    } else if Lookup(m, v) != Invalid {
      HitIsMarked(m, v);
    }
  }

  /** After a miss that the fault has let go on the page is in the TLB. */
  lemma MissFills(m: Mmu, v: nat, fault: Fault)
    requires Inv(m) && Lookup(m, v) == Invalid
    requires !Absent(m.pt, v) || fault == NoMemory || fault.Mapped?
    ensures var m' := Miss(m, v, fault); v in m'.pt && Lookup(m', v) == EntryLo(m'.pt[v])
  {
    MissKeeps(m, v, fault);
    MarkedIsFound(Miss(m, v, fault), v);
  }

  // ----- Whole epochs -----

  /** A memory access (with the outcome of the page fault it may raise), or an edit of the page table in use. */
  datatype Op = Access(v: nat, fault: Fault) | Flush(v: nat) | Insert(v: nat, ppn: bv32, dirty: bool) | Remove(v: nat)

  ghost predicate Possible(m: Mmu, op: Op) {
    op.Access? && Lookup(m, op.v) == Invalid && Absent(m.pt, op.v) ==> MayEnd(m.pt, op.v, op.fault)
  }

  function Apply(m: Mmu, op: Op): Mmu
    requires WellSized(m)
  {
    match op
    case Access(v, fault) => if Lookup(m, v) == Invalid then Miss(m, v, fault) else m
    case Flush(v) => Invalidate(m, v)
    case Insert(v, ppn, dirty) => PageInsert(m, v, ppn, dirty)
    case Remove(v) => PageRemove(m, v)
  }

  lemma ApplyKeeps(m: Mmu, op: Op)
    requires Inv(m)
    ensures Inv(Apply(m, op))
  {
    match op
    case Access(v, fault) => if Lookup(m, v) == Invalid { MissKeeps(m, v, fault); }
    case Flush(v) => InvalidateKeeps(m, v);
    case Insert(v, ppn, dirty) => InsertKeeps(m, v, ppn, dirty);
    case Remove(v) => if v in m.pt { RemoveKeeps(m, v); }
  }

  /** The states an epoch goes through satisfy the invariant, whatever is accessed and edited. */
  ghost predicate Reaches(m: Mmu, ops: seq<Op>, m': Mmu)
    decreases |ops|
  {
    if ops == [] then m' == m
    else WellSized(m) && Possible(m, ops[0]) && Reaches(Apply(m, ops[0]), ops[1..], m')
  }

  lemma {:induction false} ReachesOn(a: Mmu, o1: seq<Op>, b: Mmu, o2: seq<Op>, c: Mmu)
    requires Reaches(a, o1, b) && Reaches(b, o2, c)
    ensures Reaches(a, o1 + o2, c)
    decreases |o1|
  {
    if o1 == [] {
      assert o1 + o2 == o2;
    } else {
      ReachesOn(Apply(a, o1[0]), o1[1..], b, o2, c);
      assert (o1 + o2)[1..] == o1[1..] + o2;
    }
  }

  lemma ReachesOne(a: Mmu, ops: seq<Op>, b: Mmu, op: Op)
    requires Reaches(a, ops, b) && WellSized(b) && Possible(b, op)
    ensures Reaches(a, ops + [op], Apply(b, op))
  {
    assert Reaches(Apply(b, op), [], Apply(b, op));
    assert [op][1..] == [];
    ReachesOn(a, ops, b, [op], Apply(b, op));
  }

  lemma {:induction false} EpochKeeps(m: Mmu, ops: seq<Op>, m': Mmu)
    requires Inv(m) && Reaches(m, ops, m')
    ensures Inv(m')
    decreases |ops|
  {
    if ops != [] {
      ApplyKeeps(m, ops[0]);
      EpochKeeps(Apply(m, ops[0]), ops[1..], m');
    }
  }

  /** From load_pgdir of an unmarked table on, through any accesses and edits, the hardware never translates a page
      other than the page table says, and never finds two slots for one page. */
  lemma EpochIsCoherent(m: Mmu, pt: map<nat, Pte>, ops: seq<Op>, m': Mmu, v: nat)
    requires WellSized(m) && (forall w :: !Marked(pt, w)) && Reaches(LoadPgdir(m, pt), ops, m')
    ensures WellSized(m')
    ensures Lookup(m', v) != Invalid ==> v in m'.pt && Lookup(m', v) == EntryLo(m'.pt[v])
    ensures forall i, j :: 0 <= i < j < TLBN && m'.slots[i].hi == m'.slots[j].hi ==> m'.slots[i].hi.None?
  {
    LoadStartsEpoch(m, pt);
    EpochKeeps(LoadPgdir(m, pt), ops, m');
    TlbIsCache(m', v);
    forall i, j | 0 <= i < j < TLBN && m'.slots[i].hi == m'.slots[j].hi ensures m'.slots[i].hi.None? {
      if m'.slots[i].hi.Some? { NoDoubleMatch(m', i, j); }
    }
  }

  // ----- What an operation changes -----

  /** Words that map alike: the same frame and permission, or neither of them a page. */
  ghost predicate MapsAlike(a: Pte, b: Pte) { a.ppn == b.ppn && a.dirty == b.dirty && a.present == b.present }

  /** Nothing but page v maps otherwise, and a second-level table comes into being only whole, empty and around v. */
  ghost predicate OthersMapAlike(pt: map<nat, Pte>, pt': map<nat, Pte>, v: nat) {
    && (forall w :: w in pt && w != v ==> w in pt' && MapsAlike(pt'[w], pt[w]))
    && (forall w :: w !in pt && w != v && w in pt' ==> MapsAlike(pt'[w], ZeroPte) && w / 1024 == v / 1024)
    && (v in pt ==> pt'.Keys == pt.Keys)
  }

  /** No page but v gains or loses its mark. */
  ghost predicate OthersMarkedAlike(pt: map<nat, Pte>, pt': map<nat, Pte>, v: nat) {
    forall w :: w != v ==> (Marked(pt', w) <==> Marked(pt, w))
  }

  lemma InvalidateTouches(m: Mmu, v: nat)
    ensures var m' := Invalidate(m, v);
            && OthersMapAlike(m.pt, m'.pt, v) && OthersMarkedAlike(m.pt, m'.pt, v)
            && m'.pt.Keys == m.pt.Keys && (v in m.pt ==> MapsAlike(m'.pt[v], m.pt[v])) && !Marked(m'.pt, v)
  {
    hide EntryLo, SetHalf;
    assert Invalidate(m, v).pt == Unmark(m.pt, v);
  }

  /** Removing a page clears its word, if it was a page, and leaves all others. */
  lemma RemoveTouches(m: Mmu, v: nat)
    ensures var m' := PageRemove(m, v);
            && OthersMapAlike(m.pt, m'.pt, v) && OthersMarkedAlike(m.pt, m'.pt, v) && m'.pt.Keys == m.pt.Keys
            && (v in m.pt ==> if m.pt[v].present then m'.pt[v] == ZeroPte else m'.pt[v] == m.pt[v])
  {
    InvalidateTouches(m, v);
    hide Invalidate;
  }

  lemma TableTouches(pt: map<nat, Pte>, v: nat)
    ensures OthersMapAlike(pt, WithTable(pt, v), v) && OthersMarkedAlike(pt, WithTable(pt, v), v)
    ensures if v in pt then WithTable(pt, v) == pt
            else WithTable(pt, v)[v] == ZeroPte && forall w :: w / 1024 == v / 1024 ==> w in WithTable(pt, v)
  {
  }

  lemma TouchesTwice(a: map<nat, Pte>, b: map<nat, Pte>, c: map<nat, Pte>, v: nat)
    requires OthersMapAlike(a, b, v) && OthersMarkedAlike(a, b, v) && v in b
    requires OthersMapAlike(b, c, v) && OthersMarkedAlike(b, c, v)
    ensures OthersMapAlike(a, c, v) && OthersMarkedAlike(a, c, v)
  {
  }

  lemma WordTouches(pt: map<nat, Pte>, v: nat, word: Pte)
    requires v in pt
    ensures OthersMapAlike(pt, pt[v := word], v) && OthersMarkedAlike(pt, pt[v := word], v)
  {
  }

  /** Inserting a page maps it, unmarked, with its table whole. */
  lemma InsertTouches(m: Mmu, v: nat, ppn: bv32, dirty: bool)
    ensures var m' := PageInsert(m, v, ppn, dirty);
            && OthersMapAlike(m.pt, m'.pt, v) && OthersMarkedAlike(m.pt, m'.pt, v)
            && m'.pt.Keys == WithTable(m.pt, v).Keys && m'.pt[v].present && m'.pt[v].ppn == ppn && m'.pt[v].dirty == dirty
            && !Marked(m'.pt, v)
  {
    hide OthersMapAlike, OthersMarkedAlike, Invalidate, PageRemovePte, WithTable;
    var m0 := m.(pt := WithTable(m.pt, v));
    TableTouches(m.pt, v);
    RemoveTouches(m0, v);
    var m1 := if m0.pt[v].present && m0.pt[v].ppn != ppn then PageRemovePte(m0, v) else m0;
    if m1 != m0 { TouchesTwice(m.pt, m0.pt, m1.pt, v); }
    var m2 := Invalidate(m1, v);
    InvalidateTouches(m1, v);
    TouchesTwice(m.pt, m1.pt, m2.pt, v);
    WordTouches(m2.pt, v, Pte(ppn, dirty, true, 0, false));
    TouchesTwice(m.pt, m2.pt, m2.pt[v := Pte(ppn, dirty, true, 0, false)], v);
  }

  /** Page v has its mark, and of the others only those of slot idx may have lost theirs. */
  ghost predicate Took(pt: map<nat, Pte>, pt': map<nat, Pte>, v: nat, idx: nat) {
    && OthersMapAlike(pt, pt', v) && v in pt && pt'.Keys == pt.Keys && MapsAlike(pt'[v], pt[v]) && Marked(pt', v)
    && (forall w :: w != v ==> (Marked(pt', w) <==> Marked(pt, w) && pt[w].slot != idx))
  }

  lemma ReleasedTook(pt: map<nat, Pte>, pt0: map<nat, Pte>, v: nat, idx: nat)
    requires Released(pt, pt0, idx) && v in pt && !pt[v].inTlb
    ensures Took(pt, pt0[v := pt0[v].(slot := idx, inTlb := true)], v, idx)
  {
  }

  lemma FreshTook(m: Mmu, v: nat)
    requires Inv(m) && v in m.pt && !m.pt[v].inTlb && !Marked(m.pt, Pair(v))
    ensures Took(m.pt, Fill(m, v).pt, v, GetEmpty(m, v / 2).1)
  {
    GetEmptyFrees(m, v / 2);
    ReleasedTook(m.pt, GetEmpty(m, v / 2).0.pt, v, GetEmpty(m, v / 2).1);
    hide GetEmpty, Released, Took, Inv;
  }

  /** Filling marks the page. Marks are lost only for a slot when none is empty, and then only of one pair. */
  lemma FillTouches(m: Mmu, v: nat)
    requires Inv(m) && v in m.pt && !m.pt[v].inTlb
    ensures var m' := Fill(m, v);
            && OthersMapAlike(m.pt, m'.pt, v) && m'.pt.Keys == m.pt.Keys && MapsAlike(m'.pt[v], m.pt[v]) && Marked(m'.pt, v)
            && (Marked(m.pt, Pair(v)) || m.empty != [] ==> OthersMarkedAlike(m.pt, m'.pt, v))
            && (forall w :: w != v && Marked(m'.pt, w) ==> Marked(m.pt, w))
            && (forall w, x :: w in Lost(m, m') && x in Lost(m, m') ==> w / 2 == x / 2)
  {
    if Marked(m.pt, Pair(v)) {
      WordTouches(m.pt, v, m.pt[v].(slot := m.pt[Pair(v)].slot, inTlb := true));
    } else {
      FreshTook(m, v);
      var m', idx := Fill(m, v), GetEmpty(m, v / 2).1;
      forall w, x | w in Lost(m, m') && x in Lost(m, m') ensures w / 2 == x / 2 { OnePairAtATime(m, w, x); }
      if m.empty != [] { GetEmptyFrees(m, v / 2); PopFrees(m, idx); }
      hide GetEmpty, Fill, PageOk, SlotOk;
    }
  }

  /** Marks with one slot are of one pair. */
  lemma OnePairAtATime(m: Mmu, w: nat, x: nat)
    requires Inv(m) && Marked(m.pt, w) && Marked(m.pt, x) && m.pt[w].slot == m.pt[x].slot
    ensures w / 2 == x / 2
  {
    assert PageOk(m, w) && PageOk(m, x);
  }

  ghost function Lost(m: Mmu, m': Mmu): set<nat> { set w | w in m.pt && Marked(m.pt, w) && !Marked(m'.pt, w) }

  // ----- Only present pages? -----

  ghost predicate OnlyPresent(m: Mmu) {
    forall v :: Marked(m.pt, v) ==> m.pt[v].present
  }

  /** A miss keeps the TLB to present pages exactly when it does not run out of memory for a page whose word is empty:
      then the handler enters the word as it is. */
  lemma MissMapsPresentIff(m: Mmu, v: nat, fault: Fault)
    requires Inv(m) && Lookup(m, v) == Invalid && OnlyPresent(m) && (Absent(m.pt, v) ==> MayEnd(m.pt, v, fault))
    ensures OnlyPresent(Miss(m, v, fault)) <==> !Absent(m.pt, v) || fault != NoMemory
  {
    var m' := Miss(m, v, fault);
    if !Absent(m.pt, v) {
      FillMarks(m, v);
    } else if fault == NoMemory {
      TableKeeps(m, v);
      FillMarks(m.(pt := WithTable(m.pt, v)), v);
      assert Marked(m'.pt, v) && !m'.pt[v].present;
    } else if fault.Mapped? {
      InsertKeeps(m, v, fault.ppn, fault.dirty);
      InsertMarks(m, v, fault.ppn, fault.dirty);
      FillMarks(PageInsert(m, v, fault.ppn, fault.dirty), v);
    }
  }

  lemma FillMarks(m: Mmu, v: nat)
    requires Inv(m) && v in m.pt
    ensures var m' := Fill(m, v);
            v in m'.pt && m'.pt[v].present == m.pt[v].present && Marked(m'.pt, v)
            && forall w :: w != v && Marked(m'.pt, w) ==> Marked(m.pt, w) && m'.pt[w].present == m.pt[w].present
  {
    GetEmptyFrees(m, v / 2);
    hide GetEmpty;
  }

  lemma InsertMarks(m: Mmu, v: nat, ppn: bv32, dirty: bool)
    requires Inv(m)
    ensures forall w :: Marked(PageInsert(m, v, ppn, dirty).pt, w) ==> Marked(m.pt, w) && PageInsert(m, v, ppn, dirty).pt[w].present == m.pt[w].present
  {
  }
}
