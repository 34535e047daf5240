/** Printing numbers without a division instruction, and reading them back. */
module Numerals {
  const WORD := 0x1_0000_0000
  const LONG := 0x1_0000_0000_0000_0000

  /** From here on the shift-only division by ten is wrong. */
  const LIMIT := 10 * 0x2000_0000 + 2

  function U32(a: int): (w: int)
    ensures 0 <= w < WORD
  {
    a % WORD
  }

  // ---- Division by ten with shifts and adds ----

  /** An estimate of four fifths of n, in wrapping 32-bit sums. */
  function FourFifths(n: int): int {
    var q1 := U32(n / 2 + n / 4);
    var q2 := U32(q1 + q1 / 16);
    var q3 := U32(q2 + q2 / 256);
    U32(q3 + q3 / 65536)
  }

  function TimesTen(q: int): int { U32(2 * U32(U32(4 * q) + q)) }

  /** The estimate of n / 10, corrected by one when what is left is ten or more. */
  function TenthOf(n: int): int {
    var q := FourFifths(n) / 8;
    U32(q + U32(U32(n - TimesTen(q)) + 6) / 16)
  }

  /** Quotient and remainder; n is a 64-bit number, the working registers have 32 bits. */
  function DoDiv(n: int, base: int): (int, int) {
    if base == 10 then (TenthOf(n), U32(n - TimesTen(TenthOf(n))))
    else if base == 16 then (n / 16, n % 16)
    else (n / 8, n % 8)
  }

  lemma TimesTenIs(q: int)
    requires 0 <= q
    ensures TimesTen(q) == U32(10 * q)
  {
    var a := U32(4 * q);
    assert U32(a + q) == U32(5 * q) by { WrapAdd(4 * q, q); }
    assert U32(2 * U32(5 * q)) == U32(10 * q) by { WrapAdd(5 * q, U32(5 * q)); WrapAdd(5 * q, 5 * q); }
  }

  lemma WrapAdd(a: int, b: int)
    ensures U32(U32(a) + b) == U32(a + b)
  {
  }

  lemma WrapIs(a: int, k: int)
    ensures k * WORD <= a < (k + 1) * WORD ==> U32(a) == a - k * WORD
  {
  }

  /** Without a wrap the chain of sums loses at most a few units of four fifths. */
  lemma ChainIsClose(q1: int, q2: int, q3: int, q4: int)
    requires 0 <= q1 && q2 == q1 + q1 / 16 && q3 == q2 + q2 / 256 && q4 == q3 + q3 / 65536
    ensures q1 <= q2 <= q3 <= q4
    ensures 0x1000_0000 * q4 <= 286331153 * q1 && 0x1000_0000 * q4 >= 286331153 * q1 - 3 * 0x1000_0000
  {
    assert 16 * q2 <= 17 * q1 && 16 * q2 >= 17 * q1 - 15;
    assert 256 * q3 <= 257 * q2 && 256 * q3 >= 257 * q2 - 255;
    assert 65536 * q4 <= 65537 * q3 && 65536 * q4 >= 65537 * q3 - 65535;
  }

  lemma ThreeQuarters(n: int)
    requires 0 <= n
    ensures 4 * (n / 2 + n / 4) <= 3 * n && 4 * (n / 2 + n / 4) >= 3 * n - 5
  {
  }

  lemma WrapStays(a: int)
    requires 0 <= a < WORD
    ensures U32(a) == a
  {
  }

  /** Below the limit nothing wraps, and a tenth is missed by less than two. */
  lemma EstimateBelow(n: int, q1: int, q2: int, q3: int, q4: int)
    requires 0 <= n < LIMIT && q1 == n / 2 + n / 4
    requires q2 == q1 + q1 / 16 && q3 == q2 + q2 / 256 && q4 == q3 + q3 / 65536
    ensures 0 <= q1 <= q2 <= q3 <= q4 < WORD && 0 <= n - 10 * (q4 / 8) <= 15
  {
    ThreeQuarters(n);
    ChainIsClose(q1, q2, q3, q4);
    if n >= LIMIT - 2 { AtLimit(n, q1, q2, q3, q4); }
  }

  lemma AtLimit(n: int, q1: int, q2: int, q3: int, q4: int)
    requires LIMIT - 2 <= n < LIMIT && q1 == n / 2 + n / 4
    requires q2 == q1 + q1 / 16 && q3 == q2 + q2 / 256 && q4 == q3 + q3 / 65536
    ensures q4 == WORD - 1
  {
    assert q1 == 4026531840 && q2 == 4278190080 && q3 == 4294901760;
  }

  lemma RightBelow(n: int)
    requires 0 <= n < LIMIT
    ensures TenthOf(n) == n / 10 && U32(n - TimesTen(TenthOf(n))) == n % 10
  {
    hide U32, TimesTen;
    var q1 := n / 2 + n / 4;
    var q2 := q1 + q1 / 16;
    var q3 := q2 + q2 / 256;
    var q4 := q3 + q3 / 65536;
    EstimateBelow(n, q1, q2, q3, q4);
    WrapStays(q1);
    WrapStays(q2);
    WrapStays(q3);
    WrapStays(q4);
    assert FourFifths(n) == q4;
    hide FourFifths;
    CorrectOnce(n, q4 / 8);
  }

  /** One correction suffices when less than sixteen is left. */
  lemma CorrectOnce(n: int, q: int)
    requires 0 <= q < WORD - 1 && 0 <= n - 10 * q <= 15
    ensures U32(q + U32(U32(n - TimesTen(q)) + 6) / 16) == n / 10
    ensures U32(n - TimesTen(n / 10)) == n % 10
  {
    hide U32, TimesTen;
    TimesTenIs(q);
    TimesTenIs(n / 10);
    SameWrap(n, 10 * q);
    SameWrap(n, 10 * (n / 10));
    WrapStays(n - 10 * q + 6);
    WrapStays(q);
    WrapStays(q + 1);
  }

  lemma SameWrap(n: int, m: int)
    requires 0 <= n - m < WORD
    ensures U32(n - U32(m)) == n - m
  {
  }

  // ---- Where it goes wrong ----

  /** From the limit on some sum wraps, and the estimate falls short of four fifths by a whole word. */
  lemma EstimateFallsShort(n: int)
    requires LIMIT <= n
    ensures 0 <= FourFifths(n) < WORD && 5 * FourFifths(n) <= 4 * n - 5 * WORD
  {
    var s1 := n / 2 + n / 4;
    var q1 := U32(s1);
    var s2 := q1 + q1 / 16;
    var q2 := U32(s2);
    var s3 := q2 + q2 / 256;
    var q3 := U32(s3);
    var s4 := q3 + q3 / 65536;
    assert FourFifths(n) == U32(s4);
    WrapLoses(s1);
    WrapLoses(s2);
    WrapLoses(s3);
    WrapLoses(s4);
    hide U32, FourFifths;
    ThreeQuarters(n);
    SumsGrow(n, s1, q1, s2, q2, s3, q3, s4);
    assert 16 * s2 <= 17 * q1 && 256 * s3 <= 257 * q2 && 65536 * s4 <= 65537 * q3;
  }

  lemma WrapLoses(a: int)
    requires 0 <= a
    ensures U32(a) <= a && (a >= WORD ==> U32(a) <= a - WORD) && (a < WORD ==> U32(a) == a)
  {
  }

  /** If no earlier sum wraps, the last one does. */
  lemma SumsGrow(n: int, s1: int, q1: int, s2: int, q2: int, s3: int, q3: int, s4: int)
    requires LIMIT <= n && s1 == n / 2 + n / 4 && s2 == q1 + q1 / 16 && s3 == q2 + q2 / 256 && s4 == q3 + q3 / 65536
    requires (s1 < WORD ==> q1 == s1) && (s2 < WORD ==> q2 == s2) && (s3 < WORD ==> q3 == s3)
    ensures s1 >= WORD || s2 >= WORD || s3 >= WORD || s4 >= WORD
  {
    assert s1 >= 4026531841;
    if s1 < WORD {
      assert s2 >= 4278190081;
      if s2 < WORD {
        assert s3 >= 4294901761;
        assert s3 < WORD ==> s4 >= WORD;
      }
    }
  }

  /** The quotient then comes out too small. */
  lemma WrongFrom(n: int)
    requires LIMIT <= n < LONG
    ensures 0 <= TenthOf(n) < n / 10
  {
    if n < 0x1_E000_0000 { WrongSoon(n); } else { WrongLater(n); }
  }

  /** Just from the limit on, the remainder wraps once. */
  lemma WrongSoon(n: int)
    requires LIMIT <= n < 0x1_E000_0000
    ensures 0 <= TenthOf(n) < n / 10
  {
    hide U32, TimesTen, FourFifths;
    EstimateFallsShort(n);
    var q := FourFifths(n) / 8;
    var left := U32(n - TimesTen(q));
    TimesTenIs(q);
    WrapStays(10 * q);
    WrapIs(n - 10 * q, 1);
    WrapLoses(left + 6);
    WrapStays(q + U32(left + 6) / 16);
  }

  /** Further on, the estimate is too small for any correction. */
  lemma WrongLater(n: int)
    requires 0x1_E000_0000 <= n < LONG
    ensures 0 <= TenthOf(n) < n / 10
  {
    hide U32, TimesTen, FourFifths;
    EstimateFallsShort(n);
    var q := FourFifths(n) / 8;
    var left := U32(n - TimesTen(q));
    WrapStays(q + U32(left + 6) / 16);
  }

  // ---- Printing ----

  datatype Option<T> = None | Some(value: T)

  predicate IsBase(base: int) { base == 8 || base == 10 || base == 16 }

  const TABLE := "0123456789abcdef"

  function Quot(n: nat, base: int): (q: nat)
    requires IsBase(base)
    ensures q <= n && (n >= base ==> q < n) && (n < base ==> q == 0) && (base >= 8 ==> 8 * q <= n)
  {
    n / base
  }

  function Rest(n: nat, base: int): (r: nat)
    requires IsBase(base)
    ensures r < base && (n < base ==> r == n)
  {
    n % base
  }

  /** One more digit after a value. */
  function Then(val: int, base: int, digit: int): int { val * base + digit }

  lemma QuotRest(n: nat, base: int)
    requires IsBase(base)
    ensures Then(Quot(n, base), base, Rest(n, base)) == n
    ensures n < base ==> Then(0, base, Rest(n, base)) == n
  {
  }

  /** The numeral of n, most significant digit first. */
  function Digits(n: nat, base: int): string
    requires IsBase(base)
  {
    (if n < base then [] else Digits(Quot(n, base), base)) + [TABLE[Rest(n, base)]]
  }

  /** Whether the division used is exact. */
  predicate Exact(n: int, base: int) { base == 10 ==> n < LIMIT }

  lemma DoDivIs(n: int, base: int)
    requires 0 <= n < LONG && IsBase(base)
    ensures Exact(n, base) ==> DoDiv(n, base) == (Quot(n, base), Rest(n, base))
    ensures !Exact(n, base) ==> 0 <= DoDiv(n, base).0 < Quot(n, base)
    ensures 0 <= DoDiv(n, base).0 <= Quot(n, base) && 0 <= DoDiv(n, base).1
  {
    hide TenthOf, TimesTen;
    if base == 10 {
      if n < LIMIT { RightBelow(n); } else { WrongFrom(n); }
    }
  }

  /** What is printed, without padding; nothing is promised once a digit is looked up outside the table. */
  function Printed(n: int, base: int): Option<string>
    requires 0 <= n < LONG && IsBase(base)
  {
    DoDivIs(n, base);
    var (q, m) := DoDiv(n, base);
    var front := if n >= base then Printed(q, base) else Some([]);
    if front == None || m >= |TABLE| then None else Some(front.value + [TABLE[m]])
  }

  function Pad(width: int, c: char): string { if width <= 0 then [] else seq(width, _ => c) }

  /** The text at the right end of at least width characters, nothing but c before it. */
  predicate RightAligned(out: string, text: string, width: int, c: char) {
    && |out| == (if |text| < width then width else |text|) && out[|out| - |text|..] == text
    && forall i :: 0 <= i < |out| - |text| ==> out[i] == c
  }

  lemma PaddedIsAligned(text: string, width: int, c: char)
    ensures RightAligned(Pad(width - |text|, c) + text, text, width, c)
  {
  }

  /** Leading digits first, by recursion; padding before the first; then the last digit. */
  method PrintNum(num: int, base: int, width: int, padc: char) returns (out: Option<string>)
    requires 0 <= num < LONG && IsBase(base)
    ensures out == match Printed(num, base)
                   case None => None
                   case Some(p) => Some(Pad(width - |p|, padc) + p)
    ensures out.Some? <==> Printed(num, base).Some?
    ensures out.Some? ==> RightAligned(out.value, Printed(num, base).value, width, padc)
    decreases num
  {
    hide DoDiv, RightAligned;
    DoDivIs(num, base);
    var (result, mod) := DoDiv(num, base);
    if num >= base {
      out := PrintNum(result, base, width - 1, padc);
    } else {
      var pad: string, w := [], width - 1;
      while w > 0
        invariant (w >= 0 || w == width - 1) && w <= width - 1
        invariant pad == Pad((if width > 1 then width - 1 else 0) - (if w > 0 then w else 0), padc)
        decreases w
      {
        pad := pad + [padc];
        w := w - 1;
      }
      out := Some(pad);
    }
    ghost var front := if num >= base then Printed(result, base) else Some([]);
    if front.Some? { assert out.value == Pad(width - 1 - |front.value|, padc) + front.value; }
    assert Printed(num, base) == if front == None || mod >= |TABLE| then None else Some(front.value + [TABLE[mod]]);
    assert out == None <==> front == None;
    if out.Some? {
      if mod < |TABLE| {
        assert out.value + [TABLE[mod]] == Pad(width - 1 - |front.value|, padc) + (front.value + [TABLE[mod]]);
        out := Some(out.value + [TABLE[mod]]);
        PaddedIsAligned(front.value + [TABLE[mod]], width, padc);
      } else {
        out := None;
      }
    }
  }

  // ---- Reading back ----

  const HALF := 0x8000_0000

  function Wrap(a: int): int {
    var m := a % WORD;
    if m < HALF then m else m - WORD
  }

  /** The characters of a string, ended by a zero. */
  function CharAt(s: string, i: int): char { if 0 <= i < |s| then s[i] else '\0' }

  function DigitOf(c: char): int {
    if '0' <= c <= '9' then c as int - '0' as int
    else if 'a' <= c <= 'z' then c as int - 'a' as int + 10
    else if 'A' <= c <= 'Z' then c as int - 'A' as int + 10
    else 36
  }

  function SkipBlanks(s: string, i: nat): (j: nat)
    requires i <= |s|
    ensures i <= j <= |s|
    decreases |s| - i
  {
    if CharAt(s, i) == ' ' || CharAt(s, i) == '\t' then SkipBlanks(s, i + 1) else i
  }

  /** The value read from position i on, in wrapping arithmetic, and where the digits end. */
  function ReadDigits(s: string, i: nat, base: int, val: int): (int, nat)
    requires i <= |s| && base <= 36
    decreases |s| - i
  {
    var d := DigitOf(CharAt(s, i));
    if d >= base then (val, i) else ReadDigits(s, i + 1, base, Wrap(Then(val, base, d)))
  }

  predicate HexPrefix(s: string, i: int) { CharAt(s, i) == '0' && CharAt(s, i + 1) == 'x' }

  /** Where the digits start, and in which base. */
  function Prefix(s: string, i: nat, base: int): (nat, int)
    requires i <= |s|
  {
    if (base == 0 || base == 16) && HexPrefix(s, i) then (i + 2, 16)
    else if base == 0 && CharAt(s, i) == '0' then (i + 1, 8)
    else if base == 0 then (i, 10)
    else (i, base)
  }

  function StrtolOf(s: string, base: int): (int, nat)
    requires 0 <= base <= 36
  {
    var i := SkipBlanks(s, 0);
    var neg := CharAt(s, i) == '-';
    var j := if neg || CharAt(s, i) == '+' then i + 1 else i;
    var (k, b) := Prefix(s, j, base);
    var (val, end) := ReadDigits(s, k, b, 0);
    (if neg then Wrap(-val) else val, end)
  }

  method Strtol(s: string, base: int) returns (r: int, end: nat)
    requires 0 <= base <= 36
    ensures (r, end) == StrtolOf(s, base)
  {
    hide Wrap, DigitOf, Then;
    var i, neg, val := 0, false, 0;
    while CharAt(s, i) == ' ' || CharAt(s, i) == '\t'
      invariant 0 <= i <= |s| && SkipBlanks(s, i) == SkipBlanks(s, 0)
      decreases |s| - i
    {
      i := i + 1;
    }
    if CharAt(s, i) == '+' {
      i := i + 1;
    } else if CharAt(s, i) == '-' {
      i, neg := i + 1, true;
    }
    var b := base;
    if (b == 0 || b == 16) && CharAt(s, i) == '0' && CharAt(s, i + 1) == 'x' {
      i, b := i + 2, 16;
    } else if b == 0 && CharAt(s, i) == '0' {
      i, b := i + 1, 8;
    } else if b == 0 {
      b := 10;
    }
    ghost var k := i;
    while DigitOf(CharAt(s, i)) < b
      invariant 0 <= i <= |s| && ReadDigits(s, i, b, val) == ReadDigits(s, k, b, 0)
      decreases |s| - i
    {
      EndIsNoDigit(s, i, b);
      val := Wrap(Then(val, b, DigitOf(CharAt(s, i))));
      i := i + 1;
    }
    r, end := if neg then Wrap(-val) else val, i;
  }

  lemma EndIsNoDigit(s: string, i: nat, base: int)
    requires base <= 36 && DigitOf(CharAt(s, i)) < base
    ensures i < |s|
  {
  }

  // ---- What is read, said outright ----

  /** The letters go on where the figures end, small ones and capitals alike. */
  lemma DigitOfIs(c: char, d: int)
    requires 0 <= d < 36
    ensures DigitOf(c) == d <==>
      if d < 10 then c as int == '0' as int + d
      else c as int == 'a' as int + d - 10 || c as int == 'A' as int + d - 10
  {
  }

  /** The number a string of digits stands for. */
  function Value(digits: string, base: int): int {
    if digits == [] then 0 else Value(digits[..|digits| - 1], base) * base + DigitOf(digits[|digits| - 1])
  }

  lemma WrapIs32(a: int, w: int)
    ensures -HALF <= Wrap(a) < HALF && (Wrap(a) - a) % WORD == 0
    ensures -HALF <= w < HALF && (w - a) % WORD == 0 ==> w == Wrap(a)
  {
  }

  lemma WrapShift(a: int, k: int)
    ensures Wrap(a + k * WORD) == Wrap(a)
  {
  }

  lemma WrapThen(x: int, base: int, d: int)
    ensures Wrap(Then(Wrap(x), base, d)) == Wrap(x * base + d)
  {
    var k := (Wrap(x) - x) / WORD;
    WrapIs32(x, x);
    assert Wrap(x) == x + k * WORD;
    assert Then(Wrap(x), base, d) == (x * base + d) + (k * base) * WORD by {
      assert (x + k * WORD) * base == x * base + (k * base) * WORD;
    }
    WrapShift(x * base + d, k * base);
  }

  lemma {:induction false} ScanIsValue(s: string, i: nat, j: nat, base: int)
    requires i <= j <= |s|
    ensures Scan(s, i, j, base) == Wrap(Value(s[i..j], base))
    decreases j
  {
    hide DigitOf, Then, Wrap;
    if i < j {
      ScanIsValue(s, i, j - 1, base);
      assert s[i..j][..j - i - 1] == s[i..j - 1] && s[i..j][j - i - 1] == s[j - 1];
      WrapThen(Value(s[i..j - 1], base), base, DigitOf(s[j - 1]));
    } else {
      assert s[i..j] == [];
      WrapStaysSigned(0);
    }
  }

  lemma {:induction false} BlanksAreSkipped(s: string, i: nat, j: nat)
    requires i <= j <= |s| && (forall k :: i <= k < j ==> s[k] == ' ' || s[k] == '\t')
    requires CharAt(s, j) != ' ' && CharAt(s, j) != '\t'
    ensures SkipBlanks(s, i) == j
    decreases j - i
  {
    if i < j { BlanksAreSkipped(s, i + 1, j); }
  }

  /** What a prefix says of the base asked for: 0x for 16, a further 0 for 8, and none for the base itself, or 10. */
  predicate Means(prefix: string, base: int, radix: int) {
    || (prefix == "0x" && (base == 0 || base == 16) && radix == 16)
    || (prefix == "0" && base == 0 && radix == 8)
    || (prefix == "" && radix == if base == 0 then 10 else base)
  }

  /** The text after the sign is not cut otherwise: what follows is no digit and makes no other prefix. */
  predicate Unambiguous(prefix: string, digits: string, rest: string, base: int, radix: int) {
    && (rest != "" ==> DigitOf(rest[0]) >= radix) && (prefix + digits != "")
    && (prefix == "0" ==> CharAt(digits + rest, 0) != 'x')
    && (prefix == "" && base == 0 ==> CharAt(digits + rest, 0) != '0')
    && (prefix == "" && base == 16 ==> !HexPrefix(digits + rest, 0))
  }

  /** Blanks, a sign, a prefix and digits are read as the number they stand for, modulo 2^32, up to where they end. */
  lemma ReadsNumeral(blanks: string, sign: string, prefix: string, digits: string, rest: string, base: int, radix: int)
    requires 0 <= base <= 36 && base != 1 && forall k :: 0 <= k < |blanks| ==> blanks[k] == ' ' || blanks[k] == '\t'
    requires sign in {"", "+", "-"} && Means(prefix, base, radix) && Unambiguous(prefix, digits, rest, base, radix)
    requires forall k :: 0 <= k < |digits| ==> DigitOf(digits[k]) < radix
    ensures var s := blanks + sign + prefix + digits + rest;
      var v := if sign == "-" then -Value(digits, radix) else Value(digits, radix);
      var (r, end) := StrtolOf(s, base);
      end == |s| - |rest| && -HALF <= r < HALF && (r - v) % WORD == 0
  {
    hide DigitOf, Wrap, Scan, ReadDigits, SkipBlanks, Value, Prefix, Means, Unambiguous, StrtolOf;
    var s := blanks + sign + prefix + digits + rest;
    var i, j := |blanks|, |blanks| + |sign|;
    var k := j + |prefix|;
    var e, n := k + |digits|, Value(digits, radix);
    NumeralStarts(blanks, sign, prefix, digits, rest, base, radix);
    BlanksAreSkipped(s, 0, i);
    assert s[k..e] == digits;
    ScanReads(s, k, e, radix);
    ScanIsValue(s, k, e, radix);
    ReadStops(s, e, |rest|, prefix, digits, rest, base, radix, Wrap(n));
    StrtolIs(s, i, j, k, e, base, radix, Wrap(n));
    WrapIs32(n, 0);
    WrapIs32(-Wrap(n), 0);
  }

  lemma ReadStops(s: string, e: nat, m: nat, prefix: string, digits: string, rest: string, base: int, radix: int, val: int)
    requires e + m == |s| && m == |rest| && s[e..] == rest && radix <= 36 && Unambiguous(prefix, digits, rest, base, radix)
    ensures ReadDigits(s, e, radix, val) == (val, e)
  {
    if rest != "" { assert s[e] == s[e..][0]; }
  }

  lemma StrtolIs(s: string, i: nat, j: nat, k: nat, e: nat, base: int, radix: int, val: int)
    requires 0 <= base <= 36 && i <= j <= k <= e <= |s| && SkipBlanks(s, 0) == i && radix <= 36
    requires j == if CharAt(s, i) == '-' || CharAt(s, i) == '+' then i + 1 else i
    requires Prefix(s, j, base) == (k, radix) && ReadDigits(s, k, radix, 0) == (val, e)
    ensures StrtolOf(s, base) == (if CharAt(s, i) == '-' then Wrap(-val) else val, e)
  {
    hide SkipBlanks, Prefix, ReadDigits, Wrap;
  }

  /** Where sign, prefix and digits stand in the text. */
  lemma NumeralStarts(blanks: string, sign: string, prefix: string, digits: string, rest: string, base: int, radix: int)
    requires 0 <= base <= 36 && base != 1 && sign in {"", "+", "-"} && Means(prefix, base, radix)
    requires Unambiguous(prefix, digits, rest, base, radix) && forall k :: 0 <= k < |digits| ==> DigitOf(digits[k]) < radix
    ensures var s, i, j := blanks + sign + prefix + digits + rest, |blanks|, |blanks| + |sign|;
      && CharAt(s, i) != ' ' && CharAt(s, i) != '\t'
      && (CharAt(s, i) == '-' <==> sign == "-") && (CharAt(s, i) == '+' <==> sign == "+")
      && Prefix(s, j, base) == (j + |prefix|, radix) && radix <= 36
  {
    hide DigitOf, Prefix;
    var s, i, j := blanks + sign + prefix + digits + rest, |blanks|, |blanks| + |sign|;
    var tail := prefix + digits + rest;
    FirstOfTail(prefix, digits, rest, base, radix);
    assert s == blanks + (sign + tail) && sign + tail != "";
    assert CharAt(s, i) == (sign + tail)[0];
    assert CharAt(s, j) == CharAt(tail, 0) && CharAt(s, j + 1) == CharAt(tail, 1);
    PrefixIs(s, j, prefix, digits, rest, base, radix);
  }

  lemma FirstOfTail(prefix: string, digits: string, rest: string, base: int, radix: int)
    requires 0 <= base <= 36 && Means(prefix, base, radix) && Unambiguous(prefix, digits, rest, base, radix)
    requires forall k :: 0 <= k < |digits| ==> DigitOf(digits[k]) < radix
    ensures radix <= 36
    ensures var tail := prefix + digits + rest;
      tail != "" && tail[0] != ' ' && tail[0] != '\t' && tail[0] != '+' && tail[0] != '-'
  {
    var tail := prefix + digits + rest;
    assert tail[0] == if prefix == "" then digits[0] else prefix[0];
  }

  lemma PrefixIs(s: string, j: nat, prefix: string, digits: string, rest: string, base: int, radix: int)
    requires j <= |s| && Means(prefix, base, radix) && Unambiguous(prefix, digits, rest, base, radix)
    requires var tail := prefix + digits + rest; CharAt(s, j) == CharAt(tail, 0) && CharAt(s, j + 1) == CharAt(tail, 1)
    ensures Prefix(s, j, base) == (j + |prefix|, radix)
  {
    hide DigitOf;
    var tail := prefix + digits + rest;
    if prefix == "" {
      assert tail == digits + rest;
    } else if prefix == "0" {
      assert CharAt(tail, 1) == CharAt(digits + rest, 0);
    }
  }

  // ---- The round trip ----

  lemma TableDigits(d: int)
    requires 0 <= d < 16
    ensures DigitOf(TABLE[d]) == d && TABLE[d] != 'x' && TABLE[d] != '-' && TABLE[d] != '+' && TABLE[d] != ' ' && TABLE[d] != '\t'
  {
  }

  lemma {:induction false} DigitsAreDigits(n: nat, base: int)
    requires IsBase(base)
    ensures Digits(n, base) != []
    ensures forall i :: 0 <= i < |Digits(n, base)| ==> exists d :: 0 <= d < base && Digits(n, base)[i] == TABLE[d]
  {
    if n >= base { DigitsAreDigits(n / base, base); }
  }

  /** The value of the digits of s from i up to j. */
  function Scan(s: string, i: nat, j: nat, base: int): int
    requires j <= |s|
  {
    if j <= i then 0 else Wrap(Then(Scan(s, i, j - 1, base), base, DigitOf(s[j - 1])))
  }

  lemma {:induction false} ScanReads(s: string, i: nat, j: nat, base: int)
    requires i <= j <= |s| && base <= 36 && forall k :: i <= k < j ==> DigitOf(s[k]) < base
    ensures ReadDigits(s, i, base, 0) == ReadDigits(s, j, base, Scan(s, i, j, base))
    decreases j - i
  {
    if i < j { ScanReads(s, i, j - 1, base); }
  }

  lemma WrapStaysSigned(a: int)
    requires -HALF <= a < HALF
    ensures Wrap(a) == a
  {
  }

  /** The last digit, and the numeral before it. */
  lemma DigitsSplit(n: nat, base: int)
    requires IsBase(base)
    ensures var p := Digits(n, base);
      && p != [] && p[|p| - 1] == TABLE[Rest(n, base)]
      && p[..|p| - 1] == (if n < base then [] else Digits(Quot(n, base), base))
  {
    hide Quot, Rest;
  }

  lemma {:induction false} ScanOfDigits(s: string, i: nat, j: nat, n: nat, base: int)
    requires IsBase(base) && i <= j <= |s| && s[i..j] == Digits(n, base) && n <= HALF
    ensures Scan(s, i, j, base) == Wrap(n)
    decreases n
  {
    hide Quot, Rest, Digits, DigitOf, Wrap, Scan, Then;
    QuotRest(n, base);
    LastDigit(s, i, j, n, base);
    ScanLast(s, i, j, base);
    if n >= base {
      ScanOfDigits(s, i, j - 1, Quot(n, base), base);
      WrapStaysSigned(Quot(n, base));
    } else {
      ScanNothing(s, i, base);
    }
  }

  lemma LastDigit(s: string, i: nat, j: nat, n: nat, base: int)
    requires IsBase(base) && i <= j <= |s| && s[i..j] == Digits(n, base)
    ensures i < j && DigitOf(s[j - 1]) == Rest(n, base)
    ensures if n < base then j == i + 1 else s[i..j - 1] == Digits(Quot(n, base), base)
  {
    DigitsSplit(n, base);
    TableDigits(Rest(n, base));
    LastOf(s, i, j);
    hide Quot, Rest, Digits, DigitOf;
  }

  lemma ScanLast(s: string, i: nat, j: nat, base: int)
    requires i < j <= |s|
    ensures Scan(s, i, j, base) == Wrap(Then(Scan(s, i, j - 1, base), base, DigitOf(s[j - 1])))
  {
  }

  lemma ScanNothing(s: string, i: nat, base: int)
    requires i <= |s|
    ensures Scan(s, i, i, base) == 0
  {
  }

  lemma LastOf(s: string, i: nat, j: nat)
    requires i < j <= |s|
    ensures s[j - 1] == s[i..j][|s[i..j]| - 1] && s[i..j - 1] == s[i..j][..|s[i..j]| - 1]
    ensures s[i..j - 1] == [] ==> j == i + 1
  {
  }

  /** The numeral of n stands for n, in figures and small letters, without leading zeros. */
  lemma {:induction false} DigitsStandFor(n: nat, base: int)
    requires IsBase(base)
    ensures var p := Digits(n, base);
      && p != [] && Value(p, base) == n && (n > 0 ==> p[0] != '0') && (n == 0 ==> p == "0")
      && forall i :: 0 <= i < |p| ==> '0' <= p[i] <= '9' || 'a' <= p[i] <= 'f'
    decreases n
  {
    hide Quot, Rest, DigitOf, Digits;
    DigitsSplit(n, base);
    QuotRest(n, base);
    TableDigits(Rest(n, base));
    TableIs(Rest(n, base));
    var p := Digits(n, base);
    if n >= base {
      DigitsStandFor(Quot(n, base), base);
      assert Quot(n, base) > 0 by { QuotPositive(n, base); }
      assert p[0] == p[..|p| - 1][0];
      assert p == p[..|p| - 1] + [p[|p| - 1]];
    } else {
      assert p == [TABLE[Rest(n, base)]];
      assert p[..0] == [];
    }
  }

  lemma QuotPositive(n: nat, base: int)
    requires IsBase(base) && n >= base
    ensures Quot(n, base) > 0
  {
  }

  lemma TableIs(d: int)
    requires 0 <= d < 16
    ensures '0' <= TABLE[d] <= '9' || 'a' <= TABLE[d] <= 'f'
    ensures d > 0 <==> TABLE[d] != '0'
  {
  }

  /** A signed number as printed. */
  function Text(a: int, base: int): string
    requires IsBase(base)
  {
    if a < 0 then ['-'] + Digits(-a, base) else Digits(a, base)
  }

  /** Every 32-bit number is read back from its text, to the end of the text. */
  lemma ReadBack(a: int, base: int)
    requires -HALF <= a < HALF && IsBase(base)
    ensures StrtolOf(Text(a, base), base) == (a, |Text(a, base)|)
  {
    hide Digits, DigitOf, Wrap, Scan, ReadDigits;
    var s, n := Text(a, base), if a < 0 then -a else a;
    var i := if a < 0 then 1 else 0;
    DigitsAreDigits(n, base);
    assert s[i..|s|] == Digits(n, base);
    forall k | i <= k < |s| ensures Plain(s[k], base) {
      assert s[k] == s[i..|s|][k - i];
      var d :| 0 <= d < base && Digits(n, base)[k - i] == TABLE[d];
      TableDigits(d);
    }
    assert Plain(s[i], base);
    ScanReads(s, i, |s|, base);
    ScanOfDigits(s, i, |s|, n, base);
    ReadEnds(s, base, Wrap(n));
    StartsAt(s, i, base);
    WrapNegates(n);
    WrapStaysSigned(a);
  }

  /** A digit of the base, and none of the characters with a meaning of their own. */
  predicate Plain(c: char, base: int) {
    DigitOf(c) < base && c != 'x' && c != '-' && c != '+' && c != ' ' && c != '\t'
  }

  lemma ReadEnds(s: string, base: int, val: int)
    requires base <= 36
    ensures ReadDigits(s, |s|, base, val) == (val, |s|)
  {
  }

  lemma StartsAt(s: string, i: nat, base: int)
    requires IsBase(base) && i < |s| && (i == 0 || (i == 1 && s[0] == '-')) && forall k :: i <= k < |s| ==> Plain(s[k], base)
    ensures SkipBlanks(s, 0) == 0 && (CharAt(s, 0) == '-' <==> i == 1) && CharAt(s, 0) != '+'
    ensures Prefix(s, i, base) == (i, base)
  {
    assert Plain(s[i], base) && (i + 1 < |s| ==> Plain(s[i + 1], base));
  }

  lemma WrapNegates(n: int)
    requires 0 <= n <= HALF
    ensures Wrap(-Wrap(n)) == Wrap(-n)
  {
  }

  lemma {:induction false} DigitsAreInjective(n: nat, m: nat, base: int)
    requires IsBase(base) && Digits(n, base) == Digits(m, base)
    ensures n == m
    decreases n
  {
    DigitsSplit(n, base);
    DigitsSplit(m, base);
    TableDigits(Rest(n, base));
    TableDigits(Rest(m, base));
    QuotRest(n, base);
    QuotRest(m, base);
    hide Quot, Rest, DigitOf;
    if n >= base && m >= base {
      hide Digits;
      DigitsAreInjective(Quot(n, base), Quot(m, base), base);
    } else {
      DigitsAreDigits(Quot(n, base), base);
      DigitsAreDigits(Quot(m, base), base);
    }
  }

  lemma {:induction false} PrintedBelow(n: int, base: int)
    requires 0 <= n < LONG && IsBase(base) && Exact(n, base)
    ensures Printed(n, base) == Some(Digits(n, base))
    decreases n
  {
    DoDivIs(n, base);
    hide DoDiv, Quot, Rest;
    if n >= base { PrintedBelow(Quot(n, base), base); }
  }

  /** The number printed is the number given exactly when the division by its base is exact. */
  lemma PrintedIff(n: int, base: int)
    requires 0 <= n < LONG && IsBase(base)
    ensures Printed(n, base) == Some(Digits(n, base)) <==> Exact(n, base)
  {
    DoDivIs(n, base);
    if Exact(n, base) {
      PrintedBelow(n, base);
    } else {
      assert Exact(DoDiv(n, base).0, base) by { TenthIsWord(n); }
      hide DoDiv, Quot, Rest;
      WrongFront(n, base);
    }
  }

  lemma WrongFront(n: int, base: int)
    requires 0 <= n < LONG && IsBase(base) && n >= base && 0 <= DoDiv(n, base).0 < Quot(n, base) && Exact(DoDiv(n, base).0, base)
    requires DoDiv(n, base).1 >= 0
    ensures Printed(n, base) != Some(Digits(n, base))
  {
    hide DoDiv, Quot, Rest;
    var (q, m) := DoDiv(n, base);
    PrintedBelow(q, base);
    DigitsSplit(n, base);
    if Digits(q, base) == Digits(Quot(n, base), base) { DigitsAreInjective(q, Quot(n, base), base); }
    if m < |TABLE| {
      var r := Digits(q, base) + [TABLE[m]];
      assert r[..|r| - 1] == Digits(q, base);
    }
  }

  lemma TenthIsWord(n: int)
    ensures TenthOf(n) < WORD < LIMIT
  {
  }
}
