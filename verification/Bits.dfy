/** The macros of src/kernel/lib/memory/mmu.h on 64-bit words, and the numbers they compute. */
module Bits {
  import opened Mmu

  // ------------------------------------------------------------------------
  // The macros on 64-bit addresses

  function Pml4Idx(a: bv64): bv64 { (a >> 39) & 511 }

  function PdpIdx(a: bv64): bv64 { (a >> 30) & 511 }

  function PdIdx(a: bv64): bv64 { (a >> 21) & 511 }

  function PtIdx(a: bv64): bv64 { (a >> 12) & 511 }

  function PageAddr(i4: bv64, i3: bv64, i2: bv64, i1: bv64, off: bv64): bv64 {
    var sign: bv64 := if i4 & 256 != 0 then 0xFFFF_0000_0000_0000 else 0;
    sign | (i4 << 39) | (i3 << 30) | (i2 << 21) | (i1 << 12) | off
  }

  /** Canonical form: bits 48 to 63 repeat bit 47 (section 5.3.1 of the AMD64 Architecture
      Programmer's Manual, Volume 2). */
  predicate Canonical(a: bv64) {
    a >> 47 == 0 || a >> 47 == 0x1FFFF
  }

  /** PAGE_ADDR gives a canonical address with the indices and the offset it was made from. */
  lemma PageAddrIndices(i4: bv64, i3: bv64, i2: bv64, i1: bv64, off: bv64)
    requires i4 < 512 && i3 < 512 && i2 < 512 && i1 < 512 && off < 4096
    ensures var a := PageAddr(i4, i3, i2, i1, off);
            Canonical(a) && Pml4Idx(a) == i4 && PdpIdx(a) == i3 && PdIdx(a) == i2 && PtIdx(a) == i1 && a & 0xFFF == off
  {
  }

  /** The indices and the offset of a canonical address determine it. */
  lemma IndicesPageAddr(a: bv64)
    requires Canonical(a)
    ensures PageAddr(Pml4Idx(a), PdpIdx(a), PdIdx(a), PtIdx(a), a & 0xFFF) == a
  {
  }

  // ------------------------------------------------------------------------
  // The macros compute those numbers

  function Half(a: bv64): bv64 { a >> 1 }

  predicate Odd(a: bv64) { a & 1 == 1 }

  function Eighth(a: bv64): bv64 { a >> 3 }

  function And(a: bv64, m: bv64): bv64 { a & m }

  /** The number with the bits of `a`. */
  function Num(a: bv64): nat
    decreases a
  {
    if a == 0 then 0 else 2 * Num(Half(a)) + (if Odd(a) then 1 else 0)
  }

  lemma NumHalf(a: bv64)
    ensures Num(Half(a)) == Num(a) / 2 && Num(a) % 2 == (if Odd(a) then 1 else 0)
  {
  }

  lemma EighthIs(a: bv64)
    ensures Eighth(a) == Half(Half(Half(a)))
  {
  }

  /** A right shift is a division. */
  lemma NumEighth(a: bv64)
    ensures Num(Eighth(a)) == Num(a) / 8
  {
    hide Num, Half, Eighth, Odd;
    EighthIs(a);
    NumHalf(a);
    NumHalf(Half(a));
    NumHalf(Half(Half(a)));
  }

  /** A mask with one more bit is a remainder with one more bit. */
  lemma NumMask(a: bv64, m: bv64, m': bv64, n: nat)
    requires n > 0 && Half(And(a, m')) == And(Half(a), m) && (Odd(And(a, m')) <==> Odd(a))
    requires Num(And(Half(a), m)) == Num(Half(a)) % n
    ensures Num(And(a, m')) == Num(a) % (2 * n)
  {
    hide Num, Half, Odd, And;
    NumHalf(a);
    NumHalf(And(a, m'));
    ModStep(Num(a), n);
  }

  lemma ModStep(a: nat, n: nat)
    requires n > 0
    ensures a % (2 * n) == 2 * (a / 2 % n) + a % 2
  {
    var h := a / 2;
    assert h == n * (h / n) + h % n;
    assert a == (2 * n) * (h / n) + (2 * (h % n) + a % 2);
    ModUnique(a, 2 * n, h / n, 2 * (h % n) + a % 2);
  }

  lemma ModUnique(a: nat, n: nat, q: nat, r: nat)
    requires r < n && a == n * q + r
    ensures a % n == r
  {
    var q', r' := a / n, a % n;
    assert a == n * q' + r';
    if q' < q { Times(n, q', q); }
    if q < q' { Times(n, q, q'); }
  }

  lemma {:induction false} Times(n: nat, a: nat, b: nat)
    requires a < b
    ensures n * a + n <= n * b
  {
    if a + 1 < b { Times(n, a, b - 1); }
  }

  lemma MaskBits(a: bv64, m: bv64, m': bv64)
    requires m < 0x1_0000 && m' == (m << 1) | 1
    ensures Half(And(a, m')) == And(Half(a), m) && (Odd(And(a, m')) <==> Odd(a))
  {
  }

  lemma NumMask3(a: bv64)
    ensures Num(And(a, 7)) == Num(a) % 8
  {
    hide Num, Half, Odd, And;
    var b := Half(a);
    var c := Half(b);
    NoBits(Half(c));
    MaskBits(c, 0, 1);
    MaskBits(b, 1, 3);
    MaskBits(a, 3, 7);
    NumMask(c, 0, 1, 1);
    NumMask(b, 1, 3, 2);
    NumMask(a, 3, 7, 4);
  }

  lemma NoBits(a: bv64)
    ensures Num(And(a, 0)) == 0
  {
  }

  lemma NumMask6(a: bv64)
    ensures Num(And(a, 63)) == Num(a) % 64
  {
    hide Num, Half, Odd, And;
    var b := Half(a);
    var c := Half(b);
    NumMask3(Half(c));
    MaskBits(c, 7, 15);
    MaskBits(b, 15, 31);
    MaskBits(a, 31, 63);
    NumMask(c, 7, 15, 8);
    NumMask(b, 15, 31, 16);
    NumMask(a, 31, 63, 32);
  }

  /** The mask of the index macros is a remainder. */
  lemma NumMask9(a: bv64)
    ensures Num(And(a, 511)) == Num(a) % 512
  {
    hide Num, Half, Odd, And;
    var b := Half(a);
    var c := Half(b);
    NumMask6(Half(c));
    MaskBits(c, 63, 127);
    MaskBits(b, 127, 255);
    MaskBits(a, 255, 511);
    NumMask(c, 63, 127, 64);
    NumMask(b, 127, 255, 128);
    NumMask(a, 255, 511, 256);
  }

  /** The offset mask is a remainder. */
  lemma NumMask12(a: bv64)
    ensures Num(And(a, 0xFFF)) == Num(a) % 4096
  {
    hide Num, Half, Odd, And;
    var b := Half(a);
    var c := Half(b);
    NumMask9(Half(c));
    MaskBits(c, 511, 1023);
    MaskBits(b, 1023, 2047);
    MaskBits(a, 2047, 4095);
    NumMask(c, 511, 1023, 512);
    NumMask(b, 1023, 2047, 1024);
    NumMask(a, 2047, 4095, 2048);
  }

  function Ninth(a: bv64): bv64 { Eighth(Eighth(Eighth(a))) }

  lemma NumNinth(a: bv64)
    ensures Num(Ninth(a)) == Num(a) / 512
  {
    hide Num, Eighth;
    NumEighth(a);
    NumEighth(Eighth(a));
    NumEighth(Eighth(Eighth(a)));
  }

  lemma MacroBits(a: bv64)
    ensures var n1 := Eighth(Ninth(a)); var n2 := Ninth(n1); var n3 := Ninth(n2); var n4 := Ninth(n3);
            && PtIdx(a) == And(n1, 511) && PdIdx(a) == And(n2, 511)
            && PdpIdx(a) == And(n3, 511) && Pml4Idx(a) == And(n4, 511)
  {
  }

  /** The index macros are divisions and remainders. */
  lemma MacrosAreNumbers(a: bv64)
    ensures Num(Pml4Idx(a)) < 512 && Num(PdpIdx(a)) < 512 && Num(PdIdx(a)) < 512 && Num(PtIdx(a)) < 512
    ensures PageOfAddr(Num(a)) == Vpage(Num(Pml4Idx(a)), Num(PdpIdx(a)), Num(PdIdx(a)), Num(PtIdx(a)))
  {
    hide Num, Eighth, Ninth, And, Pml4Idx, PdpIdx, PdIdx, PtIdx;
    MacroBits(a);
    var n1 := Eighth(Ninth(a));
    var n2 := Ninth(n1);
    var n3 := Ninth(n2);
    var n4 := Ninth(n3);
    NumNinth(a);
    NumEighth(Ninth(a));
    NumNinth(n1);
    NumNinth(n2);
    NumNinth(n3);
    NumMask9(n1);
    NumMask9(n2);
    NumMask9(n3);
    NumMask9(n4);
    assert Num(a) / 512 / 8 == Num(a) / 4096;
  }

  lemma Ones()
    ensures Num(0xFFFF) == 0xFFFF && Num(0) == 0
  {
    assert Num(0xF) == 15;
    assert Num(0xFF) == 255;
    assert Num(0xFFF) == 4095;
  }

  lemma HighBits(i4: bv64, i3: bv64, i2: bv64, i1: bv64)
    requires i4 < 512 && i3 < 512 && i2 < 512 && i1 < 512
    ensures var a := PageAddr(i4, i3, i2, i1, 0);
            Ninth(Ninth(Ninth(Ninth(Eighth(Ninth(a)))))) == (if i4 >= 256 then 0xFFFF else 0) && And(a, 0xFFF) == 0
    ensures And(i4, 0xFFF) == i4
  {
  }

  lemma BigBits(i: bv64)
    requires i < 512
    ensures And(i, 511) == i && (i >= 256 <==> Odd(Eighth(Eighth(Half(Half(i))))))
  {
  }

  lemma BigIndex(i: bv64)
    requires i < 512
    ensures Num(i) < 512 && (i >= 256 <==> Num(i) >= 256)
  {
    hide Num, Eighth, Half, And, Odd;
    BigBits(i);
    NumMask9(i);
    NumHalf(i);
    NumHalf(Half(i));
    NumEighth(Half(Half(i)));
    NumEighth(Eighth(Half(Half(i))));
    NumHalf(Eighth(Eighth(Half(Half(i)))));
  }

  /** PAGE_ADDR is the canonical address of the page with those indices. */
  lemma PageAddrIsNumber(i4: bv64, i3: bv64, i2: bv64, i1: bv64)
    requires i4 < 512 && i3 < 512 && i2 < 512 && i1 < 512
    ensures Num(i4) < 512 && Num(i3) < 512 && Num(i2) < 512 && Num(i1) < 512
    ensures Num(PageAddr(i4, i3, i2, i1, 0)) == AddrOfPage(Vpage(Num(i4), Num(i3), Num(i2), Num(i1)))
  {
    hide Num, Eighth, Ninth, And, Pml4Idx, PdpIdx, PdIdx, PtIdx, PageAddr, Canonical, AddrOfPage, PageOfAddr;
    var a := PageAddr(i4, i3, i2, i1, 0);
    PageAddrIndices(i4, i3, i2, i1, 0);
    MacrosAreNumbers(a);
    HighBits(i4, i3, i2, i1);
    BigIndex(i4);
    Ones();
    NumHigh(a);
    NumMask12(a);
    PageRoundTrip(Num(a));
  }

  lemma NumHigh(a: bv64)
    ensures Num(Ninth(Ninth(Ninth(Ninth(Eighth(Ninth(a))))))) == Num(a) / 4096 / 512 / 512 / 512 / 512
  {
    hide Num, Eighth, Ninth;
    var n1 := Eighth(Ninth(a));
    var n2 := Ninth(n1);
    var n3 := Ninth(n2);
    var n4 := Ninth(n3);
    NumNinth(a);
    NumEighth(Ninth(a));
    NumNinth(n1);
    NumNinth(n2);
    NumNinth(n3);
    NumNinth(n4);
    assert Num(a) / 512 / 8 == Num(a) / 4096;
  }

  // ------------------------------------------------------------------------
  // Page table entries

  const PTE_P: bv64 := 1
  const PTE_W: bv64 := 2
  const PTE_U: bv64 := 4
  const PTE_COW: bv64 := 0x800

  lemma FlagBits(x: bv64)
    ensures (And(x, PTE_P) != 0 <==> Odd(x)) && (And(x, PTE_W) != 0 <==> Odd(Half(x)))
    ensures And(x, PTE_U) != 0 <==> Odd(Half(Half(x)))
    ensures And(x, PTE_COW) != 0 <==> Odd(Half(Half(Ninth(x))))
  {
  }

  /** The flags of an entry are the masks of its 64-bit word. */
  lemma FlagMasks(x: bv64)
    ensures var e := Decode(Num(x));
            && (And(x, PTE_P) != 0 <==> e.p) && (And(x, PTE_W) != 0 <==> e.w)
            && (And(x, PTE_U) != 0 <==> e.u) && (And(x, PTE_COW) != 0 <==> e.cow)
            && e.ppn == Num(Eighth(Ninth(x)))
  {
    hide Num, Half, Odd, And, Eighth, Ninth, Decode;
    FlagBits(x);
    NumHalf(x);
    NumHalf(Half(x));
    NumHalf(Half(Half(x)));
    NumNinth(x);
    NumHalf(Ninth(x));
    NumHalf(Half(Ninth(x)));
    NumHalf(Half(Half(Ninth(x))));
    NumEighth(Ninth(x));
    DecodeDigits(Num(x));
  }

  lemma DecodeDigits(n: nat)
    ensures var e := Decode(n);
            && (e.p <==> n % 2 == 1) && (e.w <==> n / 2 % 2 == 1) && (e.u <==> n / 2 / 2 % 2 == 1)
            && (e.cow <==> n / 512 / 2 / 2 % 2 == 1) && e.ppn == n / 512 / 8
  {
    assert n / 2 / 2 / 2 == n / 8;
    assert n / 8 / 256 == n / 2048 && n / 512 / 2 / 2 == n / 2048;
    assert n / 2048 / 2 == n / 4096 && n / 512 / 8 == n / 4096;
  }
}
