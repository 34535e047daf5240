/** A set of free block numbers packed into 32-bit words: a set bit is a free block. */
module Bitmap {
  const BITS := 32

  datatype Option<T> = None | Some(value: T)

  // ---- Words and masks, with no numbers but the words ----

  predicate Has(w: bv32, m: bv32) { w & m != 0 }

  predicate Apart(m: bv32, k: bv32) { m & k == 0 }

  function Or(w: bv32, m: bv32): bv32 { w | m }

  function Xor(w: bv32, m: bv32): bv32 { w ^ m }

  function Twice(m: bv32): bv32 { m << 1 }

  function Half(w: bv32): bv32 { w >> 1 }

  /** All of the mask's bits, or none of them. */
  predicate Whole(w: bv32, m: bv32) { w & m == 0 || w & m == m }

  lemma ShiftApart(a: bv32, b: bv32)
    ensures Apart(a, b) ==> Apart(Twice(a), Twice(b))
    ensures Apart(1, Twice(b))
  {
  }

  lemma ShiftStays(m: bv32)
    requires m != 0 && Apart(m, 0x8000_0000)
    ensures Twice(m) != 0
  {
  }

  lemma ApartBothWays(m: bv32, k: bv32)
    ensures Apart(m, k) == Apart(k, m)
  {
  }

  lemma OrHas(w: bv32, m: bv32, k: bv32)
    ensures Apart(m, k) ==> Has(Or(w, m), k) == Has(w, k)
    ensures m != 0 ==> Has(Or(w, m), m)
  {
  }

  lemma XorHas(w: bv32, m: bv32, k: bv32)
    ensures Apart(m, k) ==> Has(Xor(w, m), k) == Has(w, k)
    ensures Whole(w, m) && Has(w, m) ==> !Has(Xor(w, m), m)
  {
  }

  lemma ShiftWhole(w: bv32, m: bv32)
    ensures Whole(Half(w), m) ==> Whole(w, Twice(m))
    ensures Whole(w, 1)
  {
  }

  lemma OrNothing(w: bv32, a: bv32, b: bv32)
    ensures !Has(w, a) && !Has(w, b) ==> !Has(w, Or(a, b))
    ensures !Has(w, 0)
  {
  }

  lemma NothingIsZero(w: bv32)
    ensures w != 0 ==> Has(w, 0xFFFF_FFFF)
    ensures w == 0 ==> forall m :: !Has(w, m)
  {
  }

  // ---- Bits by number ----

  function Mask(i: nat): bv32 {
    if i == 0 then 1 else Twice(Mask(i - 1))
  }

  predicate Bit(w: bv32, i: nat) { Has(w, Mask(i)) }

  /** Bit 0 is the last one, and a shift to the right brings bit i down by one. */
  lemma BitIs(w: bv32, i: nat)
    ensures i == 0 ==> (Bit(w, i) <==> w & 1 == 1)
    ensures i > 0 ==> (Bit(w, i) <==> Bit(w >> 1, i - 1))
  {
    if i == 0 {
      LastBit(w);
    } else {
      ShiftedBit(w, Mask(i - 1));
      assert Half(w) == w >> 1;
    }
    hide Has, Mask, Twice, Half;
  }

  lemma LastBit(w: bv32)
    ensures Has(w, 1) <==> w & 1 == 1
  {
  }

  lemma ShiftedBit(w: bv32, m: bv32)
    ensures Has(w, Twice(m)) <==> Has(Half(w), m)
  {
  }

  lemma {:induction false} MasksApart(i: nat, j: nat)
    requires i < j
    ensures Apart(Mask(i), Mask(j))
  {
    hide Apart, Twice;
    if i == 0 {
      ShiftApart(0, Mask(j - 1));
    } else {
      MasksApart(i - 1, j - 1);
      ShiftApart(Mask(i - 1), Mask(j - 1));
    }
  }

  lemma TopMask()
    ensures Mask(31) == 0x8000_0000
  {
    assert Mask(8) == 0x100;
    assert Mask(16) == 0x1_0000;
    assert Mask(24) == 0x100_0000;
  }

  lemma {:induction false} MaskIsSet(i: nat)
    requires i < BITS
    ensures Mask(i) != 0
  {
    hide Apart, Twice;
    if i > 0 {
      MaskIsSet(i - 1);
      MasksApart(i - 1, 31);
      TopMask();
      ShiftStays(Mask(i - 1));
    }
  }

  /** A word holds the one bit of a mask, or not. */
  lemma {:induction false} OneBit(w: bv32, i: nat)
    ensures Whole(w, Mask(i))
    decreases i
  {
    hide Whole, Twice, Half;
    if i == 0 {
      ShiftWhole(w, 0);
    } else {
      OneBit(Half(w), i - 1);
      ShiftWhole(w, Mask(i - 1));
    }
  }

  lemma SetOne(w: bv32, i: nat, j: nat)
    requires i < BITS && j < BITS
    ensures Bit(Or(w, Mask(i)), j) <==> i == j || Bit(w, j)
  {
    hide Has, Apart, Or, Mask;
    MaskIsSet(i);
    OrHas(w, Mask(i), Mask(j));
    if i < j { MasksApart(i, j); } else if j < i { MasksApart(j, i); ApartBothWays(Mask(i), Mask(j)); }
  }

  lemma ClearOne(w: bv32, i: nat, j: nat)
    requires i < BITS && j < BITS && Bit(w, i)
    ensures Bit(Xor(w, Mask(i)), j) <==> i != j && Bit(w, j)
  {
    hide Has, Apart, Xor, Mask, Whole;
    OneBit(w, i);
    XorHas(w, Mask(i), Mask(j));
    if i < j { MasksApart(i, j); } else if j < i { MasksApart(j, i); ApartBothWays(Mask(i), Mask(j)); }
  }

  function Low(n: nat): bv32 {
    if n == 0 then 0 else Or(Low(n - 1), Mask(n - 1))
  }

  lemma LowIsAll()
    ensures Low(32) == 0xFFFF_FFFF
  {
    assert Low(4) == 0xF;
    assert Low(8) == 0xFF;
    assert Low(12) == 0xFFF;
    assert Low(16) == 0xFFFF;
    assert Low(20) == 0xF_FFFF;
    assert Low(24) == 0xFF_FFFF;
    assert Low(28) == 0xFFF_FFFF;
  }

  lemma {:induction false} NoLowBits(w: bv32, n: nat)
    requires forall j :: 0 <= j < n ==> !Bit(w, j)
    ensures !Has(w, Low(n))
  {
    hide Has, Or, Mask;
    if n == 0 {
      OrNothing(w, 0, 0);
    } else {
      NoLowBits(w, n - 1);
      assert !Bit(w, n - 1);
      OrNothing(w, Low(n - 1), Mask(n - 1));
    }
  }

  /** A word is zero exactly when it has no bit set. */
  lemma ZeroHasNoBit(w: bv32)
    ensures w == 0 <==> forall j :: 0 <= j < BITS ==> !Bit(w, j)
  {
    hide Has, Low, Mask;
    NothingIsZero(w);
    LowIsAll();
    if forall j :: 0 <= j < BITS ==> !Bit(w, j) { NoLowBits(w, 32); }
  }

  // ---- Arrays of words ----

  predicate BitAt(words: seq<bv32>, x: nat) { x / BITS < |words| && Bit(words[x / BITS], x % BITS) }

  /** How many of the first n bits are set. */
  function Ones(words: seq<bv32>, n: nat): nat {
    if n == 0 then 0 else Ones(words, n - 1) + if BitAt(words, n - 1) then 1 else 0
  }

  lemma {:induction false} OnesSame(a: seq<bv32>, b: seq<bv32>, n: nat)
    requires forall x :: 0 <= x < n ==> BitAt(a, x) == BitAt(b, x)
    ensures Ones(a, n) == Ones(b, n)
  {
    if n > 0 { OnesSame(a, b, n - 1); }
  }

  /** Setting one bit counts one more. */
  lemma {:induction false} OnesOneMore(a: seq<bv32>, b: seq<bv32>, n: nat, at: nat)
    requires at < n && !BitAt(a, at) && forall x :: 0 <= x < n ==> BitAt(b, x) == (BitAt(a, x) || x == at)
    ensures Ones(b, n) == Ones(a, n) + 1
  {
    if at == n - 1 { OnesSame(a, b, n - 1); } else { OnesOneMore(a, b, n - 1, at); }
  }

  lemma {:induction false} OnesOfRange(words: seq<bv32>, n: nat, from: int, to: int)
    requires 0 <= from <= to && forall x :: 0 <= x < n ==> (BitAt(words, x) <==> from <= x < to)
    ensures Ones(words, n) == if n <= from then 0 else if n <= to then n - from else to - from
  {
    if n > 0 { OnesOfRange(words, n - 1, from, to); }
  }

  /** A word set to w with mask i put in or taken out changes one bit. */
  lemma SetBitAt(words: seq<bv32>, x: nat, y: nat)
    requires x / BITS < |words|
    ensures BitAt(words[x / BITS := Or(words[x / BITS], Mask(x % BITS))], y) <==> y == x || BitAt(words, y)
  {
    hide Bit, Or, Mask;
    SetOne(words[x / BITS], x % BITS, y % BITS);
    if y / BITS == x / BITS && y % BITS == x % BITS { assert y == BITS * (y / BITS) + y % BITS; }
  }

  lemma ClearBitAt(words: seq<bv32>, x: nat, y: nat)
    requires BitAt(words, x)
    ensures BitAt(words[x / BITS := Xor(words[x / BITS], Mask(x % BITS))], y) <==> y != x && BitAt(words, y)
  {
    hide Bit, Xor, Mask;
    ClearOne(words[x / BITS], x % BITS, y % BITS);
    if y / BITS == x / BITS && y % BITS == x % BITS { assert y == BITS * (y / BITS) + y % BITS; }
  }

  lemma BitsJoin(a: seq<bv32>, b: seq<bv32>, x: nat)
    ensures BitAt(a + b, x) == if x < BITS * |a| then BitAt(a, x) else BitAt(b, x - BITS * |a|)
  {
    hide Bit;
    if x >= BITS * |a| {
      assert (x - BITS * |a|) / BITS == x / BITS - |a| && (x - BITS * |a|) % BITS == x % BITS;
    } else {
      assert x / BITS < |a|;
    }
  }

  class FreeSet {
    var map_: array<bv32>

    constructor (words: array<bv32>)
      ensures map_ == words
    {
      map_ := words;
    }

    method Test(x: nat) returns (free: bool)
      requires x < BITS * map_.Length
      ensures free == BitAt(map_[..], x)
    {
      free := Has(map_[x / BITS], Mask(x % BITS));
    }

    /** Take the lowest free block, if there is one. */
    method Alloc() returns (r: Option<nat>)
      modifies map_
      ensures r == None <==> forall x :: 0 <= x < BITS * map_.Length ==> !BitAt(old(map_[..]), x)
      ensures r == None ==> map_[..] == old(map_[..])
      ensures r.Some? ==> r.value < BITS * map_.Length && BitAt(old(map_[..]), r.value)
      ensures r.Some? ==> forall x :: 0 <= x < r.value ==> !BitAt(old(map_[..]), x)
      ensures r.Some? ==> forall x :: 0 <= x ==> BitAt(map_[..], x) == (BitAt(old(map_[..]), x) && x != r.value)
      ensures r.Some? ==> Ones(map_[..], BITS * map_.Length) + 1 == Ones(old(map_[..]), BITS * map_.Length)
    {
      hide Bit, Xor, Mask, Has;
      ghost var words := map_[..];
      var ix := 0;
      while ix < map_.Length
        invariant 0 <= ix <= map_.Length && map_[..] == words
        invariant forall x :: 0 <= x < BITS * ix ==> !BitAt(words, x)
      {
        if map_[ix] != 0 {
          var offset := FirstBit(map_[ix]);
          var x := ix * BITS + offset;
          assert x / BITS == ix && x % BITS == offset;
          LowerClear(words, ix, offset);
          forall y: nat ensures BitAt(words[ix := Xor(words[ix], Mask(offset))], y) <==> y != x && BitAt(words, y) {
            ClearBitAt(words, x, y);
          }
          map_[ix] := Xor(map_[ix], Mask(offset));
          assert map_[..] == words[ix := Xor(words[ix], Mask(offset))];
          assert BitAt(words, x) && !BitAt(map_[..], x);
          OnesOneMore(map_[..], words, BITS * map_.Length, x);
          return Some(x);
        }
        NoneInZero(words, ix);
        ix := ix + 1;
      }
      r := None;
    }

    /** Give a block back. */
    method Free(x: nat)
      requires x < BITS * map_.Length && !BitAt(map_[..], x)
      modifies map_
      ensures forall y :: 0 <= y ==> BitAt(map_[..], y) == (BitAt(old(map_[..]), y) || y == x)
      ensures Ones(map_[..], BITS * map_.Length) == Ones(old(map_[..]), BITS * map_.Length) + 1
    {
      hide Bit, Or, Mask;
      ghost var words := map_[..];
      forall y: nat ensures BitAt(words[x / BITS := Or(words[x / BITS], Mask(x % BITS))], y) <==> y == x || BitAt(words, y) {
        SetBitAt(words, x, y);
      }
      map_[x / BITS] := Or(map_[x / BITS], Mask(x % BITS));
      assert map_[..] == words[x / BITS := Or(words[x / BITS], Mask(x % BITS))];
      OnesOneMore(words, map_[..], BITS * map_.Length, x);
    }

    /** Count the free blocks, bit by bit. */
    method Count(n: nat) returns (c: nat)
      requires n <= BITS * map_.Length
      ensures c == Ones(map_[..], n)
    {
      c := 0;
      var i := 0;
      while i < n
        invariant 0 <= i <= n && c == Ones(map_[..], i)
      {
        var free := Test(i);
        if free { c := c + 1; }
        i := i + 1;
      }
    }
  }

  method FirstBit(w: bv32) returns (offset: nat)
    requires w != 0
    ensures offset < BITS && Bit(w, offset) && forall j :: 0 <= j < offset ==> !Bit(w, j)
  {
    ZeroHasNoBit(w);
    hide Mask, Has;
    offset := 0;
    while !Has(w, Mask(offset))
      invariant 0 <= offset < BITS
      invariant forall j :: 0 <= j < offset ==> !Bit(w, j)
      decreases BITS - offset
    {
      offset := offset + 1;
    }
  }

  lemma NoneInZero(words: seq<bv32>, ix: nat)
    requires ix < |words| && words[ix] == 0 && forall x :: 0 <= x < BITS * ix ==> !BitAt(words, x)
    ensures forall x :: 0 <= x < BITS * (ix + 1) ==> !BitAt(words, x)
  {
    ZeroHasNoBit(words[ix]);
    hide Bit;
    forall x | BITS * ix <= x < BITS * (ix + 1) ensures !BitAt(words, x) { assert x / BITS == ix; }
  }

  lemma LowerClear(words: seq<bv32>, ix: nat, offset: nat)
    requires ix < |words| && offset < BITS && forall x :: 0 <= x < BITS * ix ==> !BitAt(words, x)
    requires forall j :: 0 <= j < offset ==> !Bit(words[ix], j)
    ensures forall x :: 0 <= x < ix * BITS + offset ==> !BitAt(words, x)
  {
    hide Bit;
    forall x | BITS * ix <= x < ix * BITS + offset ensures !BitAt(words, x) {
      assert x / BITS == ix && x % BITS == x - BITS * ix;
    }
  }
}
