/** The TLB code on 32-bit page-table words and EntryLo registers, and what it does in terms of their fields. */
module TlbKernel {
  import opened TlbWords
  import opened Tlb

  /** One TLB entry as the hardware holds it: the page pair it answers for, and two EntryLo registers. */
  datatype Entry = Entry(hi: Option<nat>, lo0: bv32, lo1: bv32)

  const EmptyEntry := Entry(None, 0, 0)

  function HalfWord(e: Entry, h: nat): bv32 { if h == 0 then e.lo0 else e.lo1 }

  function WithHalf(e: Entry, h: nat, lo: bv32): Entry { if h == 0 then e.(lo0 := lo) else e.(lo1 := lo) }

  ghost function Fields(pt: map<nat, bv32>): map<nat, Pte> { map v | v in pt :: Decode(pt[v]) }

  ghost function Meaning(e: Entry): Slot { Slot(e.hi, DecodeLo(e.lo0), DecodeLo(e.lo1)) }

  ghost function Meanings(es: seq<Entry>): seq<Slot> { seq(|es|, i requires 0 <= i < |es| => Meaning(es[i])) }

  /** A register holds 0 or the EntryLo of some word: nothing else is ever written. */
  ghost predicate Written(lo: bv32) { lo == 0 || exists w :: lo == EntryLoWord(w) }

  ghost predicate AllWritten(es: seq<Entry>) {
    forall i :: 0 <= i < |es| ==> Written(es[i].lo0) && Written(es[i].lo1)
  }

  lemma StoreWord(pt: map<nat, bv32>, v: nat, w: bv32)
    ensures Fields(pt[v := w]) == Fields(pt)[v := Decode(w)]
  {
    hide Decode;
  }

  lemma StoreEntry(es: seq<Entry>, idx: nat, e: Entry)
    requires idx < |es|
    ensures Meanings(es[idx := e]) == Meanings(es)[idx := Meaning(e)]
  {
    hide Meaning;
  }

  lemma AddTable(pt: map<nat, bv32>, v: nat)
    ensures Fields(WordTable(pt, v)) == WithTable(Fields(pt), v)
  {
    ZeroWord();
    hide Decode;
  }

  /** get_pte with create, on words. */
  function WordTable(pt: map<nat, bv32>, v: nat): (r: map<nat, bv32>)
    ensures v in r
  {
    if v in pt then pt
    else
      var first := v / NPTEENTRY * NPTEENTRY;
      (map w | first <= w < first + NPTEENTRY && w !in pt :: 0) + pt
  }

  lemma HalfMeaning(e: Entry, h: nat, lo: bv32)
    ensures Meaning(WithHalf(e, h, lo)) == SetHalf(Meaning(e), h, DecodeLo(lo))
  {
  }

  // ----- What the hardware finds -----

  function FindWord(es: seq<Entry>, v: nat, i: nat): bv32
    decreases |es| - i
  {
    if i >= |es| then 0
    else if es[i].hi == Some(v / 2) then HalfWord(es[i], v % 2)
    else FindWord(es, v, i + 1)
  }

  lemma {:induction false} FindWordFinds(es: seq<Entry>, v: nat, i: nat)
    requires AllWritten(es)
    ensures DecodeLo(FindWord(es, v, i)) == Find(Meanings(es), v, i) && Written(FindWord(es, v, i))
    decreases |es| - i
  {
    hide EntryLoWord;
    if i >= |es| {
      ZeroWord();
    } else if es[i].hi != Some(v / 2) {
      FindWordFinds(es, v, i + 1);
    }
  }

  lemma WrittenSaysAll(lo: bv32, w: bv32)
    requires Written(lo) && DecodeLo(lo) == EntryLo(Decode(w))
    ensures lo == EntryLoWord(w)
  {
    ZeroWord();
    var w' :| lo == EntryLoWord(w');
    EntryLoDecodes(w');
    EntryLoOfFields(w, w');
  }

  lemma InvalidIsZero(lo: bv32)
    requires Written(lo)
    ensures DecodeLo(lo) == Invalid <==> lo == 0
  {
    ZeroWord();
    if lo != 0 {
      var w :| lo == EntryLoWord(w);
      EntryLoDecodes(w);
    }
  }

  function NewEntry(v: nat, lo: bv32): Entry { WithHalf(EmptyEntry.(hi := Some(v / 2)), v % 2, lo) }

  lemma EmptyMeans()
    ensures Meaning(EmptyEntry) == EmptySlot && Written(0)
  {
    ZeroWord();
  }

  lemma NewEntryMeans(v: nat, w: bv32)
    ensures var e := NewEntry(v, EntryLoWord(w));
      && Meaning(e) == SetHalf(Slot(Some(v / 2), Invalid, Invalid), v % 2, EntryLo(Decode(w)))
      && Written(e.lo0) && Written(e.lo1)
  {
    ZeroWord();
    EntryLoDecodes(w);
    HalfMeaning(EmptyEntry.(hi := Some(v / 2)), v % 2, EntryLoWord(w));
  }

  lemma SecondHalfMeans(e: Entry, v: nat, w: bv32)
    requires Written(e.lo0) && Written(e.lo1)
    ensures var e' := WithHalf(e, v % 2, EntryLoWord(w));
      Meaning(e') == SetHalf(Meaning(e), v % 2, EntryLo(Decode(w))) && Written(e'.lo0) && Written(e'.lo1)
  {
    EntryLoDecodes(w);
    HalfMeaning(e, v % 2, EntryLoWord(w));
  }

  lemma MarkedSlot(m: Mmu, v: nat)
    requires Inv(m) && Marked(m.pt, v)
    ensures m.pt[v].slot < TLBN
  {
    assert PageOk(m, v);
  }

  lemma LastIsSlot(m: Mmu)
    requires Inv(m)
    ensures WellSized(m) && (|m.empty| > 0 ==> m.empty[|m.empty| - 1] < TLBN)
  {
  }

  // ----- The code -----

  /** What do_pgfault meets: the area or the kind of access is refused; swapping is on, and a page is found in the end;
      it is off, and there may be memory for a second-level table and for the page. */
  datatype WordFault = Refuses | Swaps(pa: bv32, perm: bv32) | Allocates(table: bool, page: Option<bv32>, perm: bv32)

  predicate Sensible(f: WordFault) {
    match f
    case Refuses => true
    case Swaps(pa, perm) => Aligned(pa, perm)
    case Allocates(_, page, perm) => page.Some? ==> Aligned(page.value, perm)
  }

  /** How it ends: without swapping, a word that is neither present nor empty fails. */
  function Ending(pt: map<nat, bv32>, v: nat, f: WordFault): Fault {
    match f
    case Refuses => Refused
    case Swaps(pa, perm) => Mapped(FrameOf(pa), MayWrite(perm))
    case Allocates(table, page, perm) =>
      if v in pt && pt[v] != 0 then Refused
      else if v !in pt && !table then NoTable
      else match page
        case None => NoMemory
        case Some(pa) => Mapped(FrameOf(pa), MayWrite(perm))
  }

  lemma EndsAsItMay(pt: map<nat, bv32>, v: nat, f: WordFault)
    ensures MayEnd(Fields(pt), v, Ending(pt, v, f))
  {
    ZeroWord();
  }

  lemma LeftOver(idx: bv32)
    requires idx < 16
    ensures ((0 & 0xfffff0ff) | (idx << 8) | TLB_P) & !TLB_P == idx << 8
    ensures idx << 8 == 0 <==> idx == 0
  {
  }

  /** A page entered without memory leaves the slot's number in its word when it is evicted: without swapping, every
      later access to the page fails, memory or not, exactly if that number is not 0. */
  lemma NeverMappedAgainIff(pt: map<nat, bv32>, v: nat, idx: nat, f: WordFault)
    requires idx < 16 && v in pt && pt[v] == Unmarked(MarkWith(0, idx)) && f.Allocates?
    ensures Ending(pt, v, f) == Refused <==> idx != 0
  {
    SmallNumber(idx);
    LeftOver(idx as bv32);
  }

  /** A memory access, from the kernel or from a process, and what a page fault would meet; or an edit of the page table
      in use. */
  datatype Use =
    | Touch(v: nat, fault: WordFault, inKernel: bool)
    | Flushes(v: nat)
    | Inserts(v: nat, pa: bv32, perm: bv32)
    | Removes(v: nat)

  predicate MayHappen(u: Use) {
    match u
    case Touch(_, f, _) => Sensible(f)
    case Inserts(_, pa, perm) => Aligned(pa, perm)
    case _ => true
  }

  /** What the use is in the model. */
  function Meant(pt: map<nat, bv32>, u: Use): Op {
    match u
    case Touch(v, f, _) => Access(v, Ending(pt, v, f))
    case Flushes(v) => Flush(v)
    case Inserts(v, pa, perm) => Insert(v, FrameOf(pa), MayWrite(perm))
    case Removes(v) => Remove(v)
  }

  datatype Returned = Failed | Stopped | Succeeded

  /** The handler enters a translation, kills the process or panics, or the kernel stops on a null page. */
  datatype Handled = Entered | Killed | Panicked | Halted

  /** The page table in use, the TLB and the globals of the replacement algorithm. */
  class Kernel {
    var pt: map<nat, bv32>
    var regs: seq<Entry>
    var empty: seq<nat>
    var hi: seq<nat>
    var ptr: nat

    ghost function Now(): Mmu
      reads this
    {
      Mmu(Fields(pt), Meanings(regs), empty, hi, ptr)
    }

    ghost predicate Sound()
      reads this
    {
      Inv(Now()) && AllWritten(regs)
    }

    /** What the hardware finds for page v: an EntryLo register, 0 if there is none. */
    function Register(v: nat): bv32
      reads this
    {
      FindWord(regs, v, 0)
    }

    /** The TLB holds for page v the EntryLo of the page's own word if the word is marked, and nothing else. */
    lemma RegisterIsWord(v: nat)
      requires Sound()
      ensures Register(v) == if v in pt && HasMark(pt[v]) then EntryLoWord(pt[v]) else 0
    {
      hide Decode, HasMark, IsPresent, MayWrite, FrameOf, SlotOf, Unmarked, Mapping, EntryLoWord, MarkWith, DecodeLo, Aligned;
      FindWordFinds(regs, v, 0);
      TlbIsCache(Now(), v);
      if v in pt && HasMark(pt[v]) {
        WrittenSaysAll(Register(v), pt[v]);
      } else {
        InvalidIsZero(Register(v));
      }
    }

    constructor ()
      ensures pt == map[] && regs == seq(TLBN, _ => EmptyEntry) && empty == [] && hi == seq(TLBN, _ => 0) && ptr == 0
    {
      pt, regs, empty, hi, ptr := map[], seq(TLBN, _ => EmptyEntry), [], seq(TLBN, _ => 0), 0;
    }

    method TlbWrite(idx: nat, e: Entry)
      requires idx < |regs|
      modifies `regs
      ensures regs == old(regs)[idx := e] && Now() == Write(old(Now()), idx, Meaning(e))
    {
      StoreEntry(regs, idx, e);
      regs := regs[idx := e];
    }

    /** load_pgdir and the tlb_init it calls. */
    method LoadPgdir_(table: map<nat, bv32>)
      requires WellSized(Now())
      modifies this
      ensures pt == table && Now() == LoadPgdir(old(Now()), Fields(table)) && AllWritten(regs)
    {
      pt := table;
      var i := 0;
      empty := [];
      while i < TLBN
        invariant i <= TLBN && |regs| == TLBN && empty == seq(i, k => k)
        invariant forall k :: 0 <= k < i ==> regs[k] == EmptyEntry
        invariant pt == table && hi == old(hi) && ptr == old(ptr)
      {
        TlbWrite(i, EmptyEntry);
        empty := empty + [i];
        i := i + 1;
      }
      ZeroWord();
      assert Meanings(regs) == seq(TLBN, _ => EmptySlot);
    }

    method StorePte(v: nat, w: bv32)
      modifies `pt
      ensures pt == old(pt)[v := w] && Now() == old(Now()).(pt := old(Now()).pt[v := Decode(w)])
    {
      StoreWord(pt, v, w);
      pt := pt[v := w];
    }

    /** The word of v, if there is one, loses its mark. */
    method ClearMark(v: nat)
      modifies `pt
      ensures Now() == old(Now()).(pt := Unmark(old(Now()).pt, v))
    {
      hide Decode, HasMark, IsPresent, MayWrite, FrameOf, SlotOf, Unmarked, Mapping, EntryLoWord, MarkWith, DecodeLo, Aligned;
      if v in pt {
        UnmarkWord(pt[v]);
        StorePte(v, Unmarked(pt[v]));
      }
    }

    method GetEmpty_(h: nat) returns (idx: nat)
      requires WellSized(Now()) && (|empty| > 0 ==> empty[|empty| - 1] < TLBN)
      modifies `pt, `empty, `hi, `ptr
      ensures (Now(), idx) == GetEmpty(old(Now()), h) && idx < TLBN
    {
      hide Decode, HasMark, IsPresent, MayWrite, FrameOf, SlotOf, Unmarked, Mapping, EntryLoWord, MarkWith, DecodeLo, Aligned;
      if |empty| > 0 {
        idx := empty[|empty| - 1];
        empty := empty[..|empty| - 1];
      } else {
        idx := ptr;
        ptr := (ptr + 1) % TLBN;
        var hi0 := hi[idx];
        ClearMark(2 * hi0);
        ClearMark(2 * hi0 + 1);
      }
      hi := hi[idx := h];
    }

    predicate InTlb(v: nat)
      reads this
    {
      v in pt && HasMark(pt[v])
    }

    /** tlb_miss_handler once the page is mapped. */
    method FillMiss(v: nat)
      requires Sound() && v in pt && !InTlb(v)
      modifies this
      ensures Now() == Fill(old(Now()), v) && AllWritten(regs)
      ensures v in pt && InTlb(v) && (IsPresent(pt[v]) <==> IsPresent(old(pt)[v]))
    {
      hide Decode, HasMark, IsPresent, MayWrite, FrameOf, SlotOf, Unmarked, Mapping, EntryLoWord, MarkWith, DecodeLo, Aligned;
      hide Inv, PageOk, SlotOk, GetEmpty, SetHalf, Meaning, WithHalf;
      LastIsSlot(Now());
      var v2 := Pair(v);
      var idx: nat;
      var e := NewEntry(v, EntryLoWord(pt[v]));
      NewEntryMeans(v, pt[v]);
      if InTlb(v2) {
        MarkedSlot(Now(), v2);
        SecondHalfMeans(e, v2, pt[v2]);
        e := WithHalf(e, v2 % 2, EntryLoWord(pt[v2]));
        idx := SlotOf(pt[v2]);
      } else {
        GetEmptyFrees(Now(), v / 2);
        idx := GetEmpty_(v / 2);
        assert v in Now().pt;
      }
      TlbWrite(idx, e);
      MarkWord(pt[v], idx);
      StorePte(v, MarkWith(pt[v], idx));
    }

    /** tlb_invalidate on the page table in use. */
    method TlbInvalidate(v: nat)
      requires Sound()
      modifies this
      ensures Now() == Invalidate(old(Now()), v) && Sound()
      ensures pt.Keys == old(pt).Keys
    {
      hide Decode, HasMark, IsPresent, MayWrite, FrameOf, SlotOf, Unmarked, Mapping, EntryLoWord, MarkWith, DecodeLo, Aligned;
      InvalidateKeeps(Now(), v);
      if !InTlb(v) { return; }
      hide Inv, PageOk, SlotOk, SetHalf, Meaning, WithHalf;
      MarkedSlot(Now(), v);
      ZeroWord();
      var idx, v2 := SlotOf(pt[v]), Pair(v);
      var e := EmptyEntry;
      EmptyMeans();
      if InTlb(v2) {
        NewEntryMeans(v2, pt[v2]);
        e := NewEntry(v2, EntryLoWord(pt[v2]));
      } else {
        empty := empty + [idx];
      }
      TlbWrite(idx, e);
      UnmarkWord(pt[v]);
      StorePte(v, Unmarked(pt[v]));
    }

    method PageRemovePte_(v: nat)
      requires Sound() && v in pt
      modifies this
      ensures Now() == PageRemovePte(old(Now()), v) && Sound()
      ensures pt.Keys == old(pt).Keys
    {
      hide Decode, HasMark, IsPresent, MayWrite, FrameOf, SlotOf, Unmarked, Mapping, EntryLoWord, MarkWith, DecodeLo, Aligned;
      RemoveKeeps(Now(), v);
      ZeroWord();
      if IsPresent(pt[v]) {
        TlbInvalidate(v);
        StorePte(v, 0);
      }
    }

    /** The frame is compared as the page structures are: one for each frame. */
    method PageInsert_(v: nat, pa: bv32, perm: bv32)
      requires Sound() && Aligned(pa, perm)
      modifies this
      ensures Now() == PageInsert(old(Now()), v, FrameOf(pa), MayWrite(perm)) && Sound()
      ensures v in pt && pt[v] == Mapping(pa, perm) && MapsTo(pt[v], pa, perm)
    {
      hide Decode, HasMark, IsPresent, MayWrite, FrameOf, SlotOf, Unmarked, Mapping, EntryLoWord, MarkWith, DecodeLo, Aligned;
      hide MapsTo;
      MappingBits(pa, perm);
      InsertKeeps(Now(), v, FrameOf(pa), MayWrite(perm));
      TableKeeps(Now(), v);
      AddTable(pt, v);
      pt := WordTable(pt, v);
      if IsPresent(pt[v]) {
        if FrameOf(pt[v]) != FrameOf(pa) { PageRemovePte_(v); }
      }
      TlbInvalidate(v);
      MapWord(pa, perm);
      StorePte(v, Mapping(pa, perm));
    }

    method PageRemove_(v: nat)
      requires Sound()
      modifies this
      ensures Now() == PageRemove(old(Now()), v) && Sound()
    {
      if v in pt { PageRemovePte_(v); }
    }

    /** do_pgfault for page v, which is absent. */
    method DoPgfault(v: nat, fault: WordFault) returns (r: Returned)
      requires Sound() && !InTlb(v) && Sensible(fault) && (v in pt ==> !IsPresent(pt[v]))
      modifies this
      ensures Now() == Faulted(old(Now()), v, Ending(old(pt), v, fault)) && Sound()
      ensures r == Failed <==> Ending(old(pt), v, fault) == Refused
      ensures r == Stopped <==> Ending(old(pt), v, fault) == NoTable
      ensures r == Succeeded ==> v in pt && !InTlb(v) && (IsPresent(pt[v]) <==> Ending(old(pt), v, fault).Mapped?)
    {
      hide Decode, HasMark, IsPresent, MayWrite, FrameOf, SlotOf, Unmarked, Mapping, EntryLoWord, MarkWith, DecodeLo, Aligned;
      FaultKeeps(Now(), v, Ending(pt, v, fault));
      hide Inv;
      match fault {
        case Refuses => return Failed;
        case Swaps(pa, perm) => PageInsert_(v, pa, perm);
        case Allocates(table, page, perm) =>
          if v !in pt && !table { return Stopped; }
          if v in pt && pt[v] != 0 { return Failed; }
          if page.Some? {
            PageInsert_(v, page.value, perm);
          } else {
            AddTable(pt, v);
            pt := WordTable(pt, v);
          }
      }
      return Succeeded;
    }

    /** tlb_miss_handler, with the page fault it may raise: entered, killed, panicked or halted, each exactly when; once
        entered the TLB holds the EntryLo of the page's word, which is that of an absent page exactly if the word was
        empty, or missing, and there was no memory for the page. */
    method MissHandler(v: nat, fault: WordFault, inKernel: bool) returns (r: Handled)
      requires Sound() && Register(v) == 0 && Sensible(fault)
      modifies this
      ensures Now() == Miss(old(Now()), v, Ending(old(pt), v, fault)) && Sound()
      ensures var absent := v !in old(pt) || !IsPresent(old(pt)[v]);
              var fails := fault.Refuses? || (fault.Allocates? && v in old(pt) && old(pt)[v] != 0);
        && (r == Killed <==> absent && fails && !inKernel)
        && (r == Panicked <==> absent && fails && inKernel)
        && (r == Halted <==> v !in old(pt) && fault.Allocates? && !fault.table)
        && (r == Entered ==> v in pt && Register(v) == EntryLoWord(pt[v]))
        && (r == Entered && !IsPresent(pt[v]) <==>
             absent && !fails && fault.Allocates? && fault.page == None && (v in old(pt) || fault.table))
    {
      hide Decode, HasMark, IsPresent, MayWrite, FrameOf, SlotOf, Unmarked, Mapping, EntryLoWord, MarkWith, DecodeLo, Aligned;
      Misses(v, fault);
      hide Inv, Faulted, Fill;
      if v !in pt || !IsPresent(pt[v]) {
        var ret := DoPgfault(v, fault);
        if ret == Failed { return if inKernel then Panicked else Killed; }
        if ret == Stopped { return Halted; }
      }
      FillMiss(v);
      RegisterIsWord(v);
      return Entered;
    }

    lemma Misses(v: nat, fault: WordFault)
      requires Sound() && Register(v) == 0
      ensures !InTlb(v) && Inv(Miss(Now(), v, Ending(pt, v, fault)))
    {
      hide Decode, HasMark, IsPresent, MayWrite, FrameOf, SlotOf, Unmarked, Mapping, EntryLoWord, MarkWith, DecodeLo, Aligned;
      FindWordFinds(regs, v, 0);
      InvalidIsZero(Register(v));
      NoMarkWithoutHit(Now(), v);
      MissKeeps(Now(), v, Ending(pt, v, fault));
    }

    /** One use of the memory is an operation of the model, and a possible one. */
    method Serve(u: Use) returns (r: Handled)
      requires Sound() && MayHappen(u)
      modifies this
      ensures Sound()
      ensures Possible(old(Now()), Meant(old(pt), u)) && Now() == Apply(old(Now()), Meant(old(pt), u))
    {
      hide Inv, Miss, Ending, Faulted, Invalidate, PageInsert, PageRemove, MayEnd;
      r := Entered;
      match u
      case Touch(v, fault, inKernel) =>
        EndsAsItMay(pt, v, fault);
        RegisterIsZero(v);
        if Register(v) == 0 { r := MissHandler(v, fault, inKernel); }
      case Flushes(v) => TlbInvalidate(v);
      case Inserts(v, pa, perm) => PageInsert_(v, pa, perm);
      case Removes(v) => PageRemove_(v);
    }

    lemma RegisterIsZero(v: nat)
      requires Sound()
      ensures Register(v) == 0 <==> Lookup(Now(), v) == Invalid
    {
      FindWordFinds(regs, v, 0);
      InvalidIsZero(Register(v));
    }

    /** From load_pgdir of an unmarked table on, whatever is accessed and edited, and for as long as the process and the
        kernel live: a run of the model, and the register for a page is the EntryLo of the page's own word, or 0. */
    method Epoch(table: map<nat, bv32>, uses: seq<Use>) returns (r: Handled, ghost ops: seq<Op>)
      requires WellSized(Now()) && (forall v :: v in table ==> !HasMark(table[v]))
      requires forall i :: 0 <= i < |uses| ==> MayHappen(uses[i])
      modifies this
      ensures Reaches(LoadPgdir(old(Now()), Fields(table)), ops, Now()) && (r == Entered ==> |ops| == |uses|)
      ensures forall v: nat :: Register(v) == if v in pt && HasMark(pt[v]) then EntryLoWord(pt[v]) else 0
    {
      hide HasMark, EntryLoWord, Inv, LoadPgdir, Apply, Possible;
      LoadStartsEpoch(Now(), Fields(table));
      ghost var start := LoadPgdir(Now(), Fields(table));
      LoadPgdir_(table);
      r, ops := Entered, [];
      var i := 0;
      while i < |uses| && r == Entered
        invariant |ops| == i <= |uses| && Sound() && Reaches(start, ops, Now())
      {
        LastIsSlot(Now());
        ghost var now, op := Now(), Meant(pt, uses[i]);
        r := Serve(uses[i]);
        ReachesOne(start, ops, now, op);
        ops := ops + [op];
        i := i + 1;
      }
      forall v: nat ensures Register(v) == if v in pt && HasMark(pt[v]) then EntryLoWord(pt[v]) else 0 { RegisterIsWord(v); }
    }
  }
}
