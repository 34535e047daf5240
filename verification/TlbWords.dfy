/** Page-table words and EntryLo registers: where their fields lie, and what the kernel's bit operations do to them. */
module TlbWords {
  const PTE_P: bv32 := 0x001
  const PTE_W: bv32 := 0x002
  const TLB_P: bv32 := 0x080

  /** A page-table word read field by field: page frame, present and write flags, the TLB slot remembered in bits 8-11,
      and the bit that says the page is in the TLB. */
  datatype Pte = Pte(ppn: bv32, dirty: bool, present: bool, slot: nat, inTlb: bool)

  /** What an EntryLo register says to the hardware. */
  datatype Lo = Invalid | Valid(ppn: bv32, dirty: bool)

  const ZeroPte := Pte(0, false, false, 0, false)

  function FrameOf(w: bv32): bv32 { w >> 12 }

  function SlotOf(w: bv32): nat { ((w >> 8) & 0xf) as nat }

  predicate HasMark(w: bv32) { w & TLB_P != 0 }

  predicate IsPresent(w: bv32) { w & PTE_P != 0 }

  predicate MayWrite(w: bv32) { w & PTE_W != 0 }

  function Decode(w: bv32): (p: Pte)
    ensures p.inTlb == HasMark(w) && p.present == IsPresent(w) && p.slot == SlotOf(w) && p.ppn == FrameOf(w)
  {
    Pte(FrameOf(w), MayWrite(w), IsPresent(w), SlotOf(w), HasMark(w))
  }

  function Unmarked(w: bv32): bv32 { w & !TLB_P }

  /** A page-aligned frame and the low permission bits. */
  predicate Aligned(pa: bv32, perm: bv32) { pa & 0xfff == 0 && perm & 0x7f == perm }

  function Mapping(pa: bv32, perm: bv32): bv32 { pa | PTE_P | perm }

  function MarkWith(w: bv32, idx: nat): bv32
    requires idx < 16
  {
    (w & 0xfffff0ff) | ((idx as bv32) << 8) | TLB_P
  }

  /** ENTRYLO: frame, dirty and valid bits, with the caching and global fields fixed. */
  function EntryLoWord(w: bv32): bv32 {
    ((w >> 12) << 6) | (2 << 3) | (((w >> 1) & 1) << 2) | 0x3
  }

  function DecodeLo(lo: bv32): Lo {
    if lo & 0x2 == 0 then Invalid else Valid(lo >> 6, lo & 0x4 != 0)
  }

  function EntryLo(p: Pte): Lo { Valid(p.ppn, p.dirty) }

  lemma SmallNumber(idx: nat)
    requires idx < 16
    ensures idx as bv32 < 16 && (idx as bv32) as nat == idx
  {
    if idx < 8 {
      if idx == 0 {} else if idx == 1 {} else if idx == 2 {} else if idx == 3 {}
      else if idx == 4 {} else if idx == 5 {} else if idx == 6 {} else {}
    } else {
      if idx == 8 {} else if idx == 9 {} else if idx == 10 {} else if idx == 11 {}
      else if idx == 12 {} else if idx == 13 {} else if idx == 14 {} else {}
    }
  }

  lemma MarkedFields(w: bv32, idx: bv32)
    requires idx < 16
    ensures var m := (w & 0xfffff0ff) | (idx << 8) | TLB_P;
      && (m >> 8) & 0xf == idx && m >> 12 == w >> 12 && m & TLB_P != 0
      && m & PTE_P == w & PTE_P && m & PTE_W == w & PTE_W
  {
  }

  /** Storing a slot number and TLB_P in a word changes just these two fields. */
  lemma MarkWord(w: bv32, idx: nat)
    requires idx < 16
    ensures Decode(MarkWith(w, idx)) == Decode(w).(slot := idx, inTlb := true)
  {
    SmallNumber(idx);
    MarkedFields(w, idx as bv32);
  }

  /** And no other bit of the word. */
  lemma MarkLeavesBits(w: bv32, idx: nat)
    requires idx < 16
    ensures MarkWith(w, idx) & 0xfffff07f == w & 0xfffff07f
  {
    SmallNumber(idx);
    MarkedBits(w, idx as bv32);
  }

  lemma MarkedBits(w: bv32, idx: bv32)
    requires idx < 16
    ensures ((w & 0xfffff0ff) | (idx << 8) | TLB_P) & 0xfffff07f == w & 0xfffff07f
  {
  }

  lemma UnmarkedFields(w: bv32)
    ensures var m := w & !TLB_P;
      && (m >> 8) & 0xf == (w >> 8) & 0xf && m >> 12 == w >> 12 && m & TLB_P == 0
      && m & PTE_P == w & PTE_P && m & PTE_W == w & PTE_W
  {
  }

  lemma UnmarkWord(w: bv32)
    ensures Decode(Unmarked(w)) == Decode(w).(inTlb := false)
  {
    UnmarkedFields(w);
  }

  lemma UnmarkLeavesBits(w: bv32)
    ensures Unmarked(w) & 0xffffff7f == w & 0xffffff7f && Unmarked(w) & 0x80 == 0
  {
  }

  lemma MappedFields(pa: bv32, perm: bv32)
    requires Aligned(pa, perm)
    ensures var m := pa | PTE_P | perm;
      && (m >> 8) & 0xf == 0 && m >> 12 == pa >> 12 && m & TLB_P == 0
      && m & PTE_P != 0 && m & PTE_W == perm & PTE_W
  {
  }

  /** The frame, the permission bits asked for, and the present bit. */
  predicate MapsTo(w: bv32, pa: bv32, perm: bv32) { w & 0xfffff000 == pa && w & 0xfff == perm | 1 }

  lemma MappingBits(pa: bv32, perm: bv32)
    requires Aligned(pa, perm)
    ensures MapsTo(Mapping(pa, perm), pa, perm)
    ensures Mapping(pa, perm) & 0xfffff000 == pa && Mapping(pa, perm) & 0xfff == perm | 1
  {
  }

  /** A fresh mapping of a page-aligned frame is present and not in the TLB. */
  lemma MapWord(pa: bv32, perm: bv32)
    requires Aligned(pa, perm)
    ensures Decode(Mapping(pa, perm)) == Pte(FrameOf(pa), MayWrite(perm), true, 0, false)
  {
    MappedFields(pa, perm);
    assert 0 as bv32 as nat == 0;
  }

  lemma ZeroWord()
    ensures Decode(0) == ZeroPte && DecodeLo(0) == Invalid
  {
  }

  lemma EntryLoFields(w: bv32)
    ensures var lo := EntryLoWord(w);
      && lo >> 6 == w >> 12 && (lo >> 3) & 0x7 == 2 && lo & 0x3 == 0x3 && lo & 0x2 != 0
      && (lo & 0x4 != 0 <==> w & PTE_W != 0)
  {
  }

  /** The register built from a word tells the hardware that word's frame and write flag; it is valid and global, with
      cache attribute 2. */
  lemma EntryLoDecodes(w: bv32)
    ensures DecodeLo(EntryLoWord(w)) == EntryLo(Decode(w))
    ensures var lo := EntryLoWord(w);
      && lo >> 6 == w >> 12 && (lo >> 3) & 0x7 == 2 && lo & 0x3 == 0x3 && (lo & 0x4 != 0 <==> w & 0x2 != 0)
  {
    EntryLoFields(w);
  }

  /** EntryLo is determined by the frame and the write flag alone, so marking and unmarking never change it, and it is
      never the invalid word. */
  lemma EntryLoOfFields(w: bv32, v: bv32)
    requires Decode(w).ppn == Decode(v).ppn && Decode(w).dirty == Decode(v).dirty
    ensures EntryLoWord(w) == EntryLoWord(v) != 0
  {
    assert (w & PTE_W != 0) == ((w >> 1) & 1 == 1) && (v & PTE_W != 0) == ((v >> 1) & 1 == 1);
  }
}
