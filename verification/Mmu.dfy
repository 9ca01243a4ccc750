/** Addresses and page table entries: src/kernel/lib/memory/mmu.h and layout.h. */
module Mmu {
  datatype Option<+T> = None | Some(value: T)

  const PAGE_SIZE: nat := 4096
  const TABLE_SIZE: nat := 512

  type Index = x: nat | x < 512

  /** A virtual page by its indices into the four levels of tables. */
  datatype Vpage = Vpage(i4: Index, i3: Index, i2: Index, i1: Index)

  /** `v` with its index into the table of level `lvl` replaced. */
  function SetIdx(v: Vpage, lvl: nat, x: Index): Vpage {
    if lvl == 4 then v.(i4 := x) else if lvl == 3 then v.(i3 := x) else if lvl == 2 then v.(i2 := x) else v.(i1 := x)
  }

  /** A 64-bit word of memory, read as a table entry: the frame number in bits 12 and up, the flags
      P, W and U, the bit the kernel uses for copy-on-write, and the other eight flag bits. */
  datatype Word = Word(ppn: nat, p: bool, w: bool, u: bool, cow: bool, rest: nat)

  const ZERO := Word(0, false, false, false, false, 0)

  // ------------------------------------------------------------------------
  // Addresses

  /** The virtual page with number `n`. */
  function Nth(n: nat): Vpage {
    Vpage(n / 512 / 512 / 512 % 512, n / 512 / 512 % 512, n / 512 % 512, n % 512)
  }

  /** The virtual page of the 64-bit address `a`: shifts are divisions, masks are remainders. */
  function PageOfAddr(a: nat): Vpage { Nth(a / 4096) }

  /** How many virtual pages there are. */
  const LIMIT: nat := 0x10_0000_0000

  lemma NthInjective(a: nat, b: nat)
    requires a < LIMIT && b < LIMIT && Nth(a) == Nth(b)
    ensures a == b
  {
    NthDigits(a);
    NthDigits(b);
  }

  lemma NthDigits(a: nat)
    requires a < LIMIT
    ensures var v := Nth(a); a == ((v.i4 * 512 + v.i3) * 512 + v.i2) * 512 + v.i1
  {
    var a2 := a / 512;
    var a3 := a2 / 512;
    var a4 := a3 / 512;
    assert a == a2 * 512 + a % 512 && a2 == a3 * 512 + a2 % 512 && a3 == a4 * 512 + a3 % 512;
    assert a4 < 512;
  }

  function IndexAt(v: Vpage, l: nat): Index {
    if l >= 4 then v.i4 else if l == 3 then v.i3 else if l == 2 then v.i2 else v.i1
  }

  /** Bits 48 to 63 of a canonical address whose PML4 index is `i4`. */
  function Sign(i4: Index): nat { if i4 >= 256 then 0xFFFF else 0 }

  /** The canonical address of a virtual page. */
  function AddrOfPage(v: Vpage): nat {
    ((((Sign(v.i4) * 512 + v.i4) * 512 + v.i3) * 512 + v.i2) * 512 + v.i1) * 4096
  }

  lemma AddrRoundTrip(v: Vpage)
    ensures PageOfAddr(AddrOfPage(v)) == v && AddrOfPage(v) < 0x1_0000_0000_0000_0000
  {
    hide PageOfAddr;
    var n4 := Sign(v.i4) * 512 + v.i4;
    var n3 := n4 * 512 + v.i3;
    var n2 := n3 * 512 + v.i2;
    var n1 := n2 * 512 + v.i1;
    Digit(Sign(v.i4), v.i4);
    Digit(n4, v.i3);
    Digit(n3, v.i2);
    Digit(n2, v.i1);
    Digits(AddrOfPage(v), n1, n2, n3, n4);
  }

  lemma Digit(n: nat, i: Index)
    ensures (n * 512 + i) / 512 == n && (n * 512 + i) % 512 == i
  {
  }

  lemma PageRoundTrip(a: nat)
    requires a % PAGE_SIZE == 0 && a / 4096 / 512 / 512 / 512 / 512 == Sign(PageOfAddr(a).i4)
    ensures AddrOfPage(PageOfAddr(a)) == a
  {
    var n1 := a / 4096;
    var n2 := n1 / 512;
    var n3 := n2 / 512;
    var n4 := n3 / 512;
    assert a == n1 * 4096 && n1 == n2 * 512 + n1 % 512 && n2 == n3 * 512 + n2 % 512 && n3 == n4 * 512 + n3 % 512;
  }

  /** The address of the page that `a` lies in. */
  function RoundDown(a: nat): nat { a / PAGE_SIZE * PAGE_SIZE }

  function RoundUp(len: nat): nat { (len + PAGE_SIZE - 1) / PAGE_SIZE * PAGE_SIZE }

  /** How many pages hold `len` bytes. */
  function Count(len: nat): nat { (len + PAGE_SIZE - 1) / PAGE_SIZE }

  lemma RoundDownIs(a: nat)
    ensures RoundDown(a) % PAGE_SIZE == 0 && RoundDown(a) <= a < RoundDown(a) + PAGE_SIZE
  {
  }

  /** The loops over `RoundUp(len)` bytes take one round for each page that starts below `len`. */
  lemma CountIs(len: nat, p: nat)
    ensures p < Count(len) <==> p * PAGE_SIZE < len
    ensures RoundUp(len) == Count(len) * PAGE_SIZE
  {
    var n := (len + PAGE_SIZE - 1) / PAGE_SIZE;
    assert n * PAGE_SIZE < len + PAGE_SIZE && len <= n * PAGE_SIZE;
  }

  lemma SamePage(a: nat, b: nat)
    requires a / PAGE_SIZE == b / PAGE_SIZE
    ensures PageOfAddr(a) == PageOfAddr(b)
  {
  }

  lemma RoundDownSamePage(a: nat)
    ensures PageOfAddr(RoundDown(a)) == PageOfAddr(a)
  {
    SamePage(RoundDown(a), a);
  }

  // The layout.

  const KERNEL_BASE: nat := 0xFFFF_FFF8_0000_0000
  const KERNEL_INFO: nat := KERNEL_BASE - 8 * PAGE_SIZE - PAGE_SIZE
  const IOAPIC_BASE: nat := KERNEL_INFO - 2 * PAGE_SIZE
  const EXCEPTION_STACK_TOP: nat := IOAPIC_BASE - 2 * PAGE_SIZE
  const KERNEL_TEMP: nat := EXCEPTION_STACK_TOP - 2 * PAGE_SIZE - PAGE_SIZE
  const USER_TOP: nat := 0x100_0000_0000
  const USER_STACK_TOP: nat := 0xA_0000_0000

  /** The slots `0..PML4_IDX(USER_TOP)`, bound included, that task_destroy and sys_fork walk. */
  const USER_SLOTS: nat := 3

  const TEMP := Vpage(511, 479, 511, 496)

  /** The page USER_STACK_TOP - PAGE_SIZE. */
  const STACK := Vpage(0, 39, 511, 511)

  lemma Layout()
    ensures PageOfAddr(KERNEL_TEMP) == TEMP && PageOfAddr(USER_STACK_TOP - PAGE_SIZE) == STACK
    ensures KERNEL_TEMP % PAGE_SIZE == 0 && USER_STACK_TOP % PAGE_SIZE == 0 && USER_TOP % PAGE_SIZE == 0
    ensures PageOfAddr(USER_TOP).i4 + 1 == USER_SLOTS
    ensures forall a: nat :: a < USER_TOP ==> PageOfAddr(a).i4 < USER_SLOTS
  {
    hide PageOfAddr;
    Digits(KERNEL_TEMP, 0xF_FFFF_FF7F_FFF0, 0x7FF_FFFF_BFFF, 0x3_FFFF_FFDF, 0x1FF_FFFF);
    Digits(USER_STACK_TOP - PAGE_SIZE, 0x9F_FFFF, 0x4FFF, 39, 0);
    Digits(USER_TOP, 0x1000_0000, 0x8_0000, 0x400, 2);
    forall a: nat | a < USER_TOP ensures PageOfAddr(a).i4 < USER_SLOTS { UserSlot(a); }
  }

  lemma Digits(a: nat, n1: nat, n2: nat, n3: nat, n4: nat)
    requires a / 4096 == n1 && n1 / 512 == n2 && n2 / 512 == n3 && n3 / 512 == n4
    ensures PageOfAddr(a) == Vpage(n4 % 512, n3 % 512, n2 % 512, n1 % 512)
  {
  }

  lemma UserSlot(a: nat)
    requires a < USER_TOP
    ensures PageOfAddr(a).i4 < USER_SLOTS
  {
    var n := a / 4096;
    assert n < 0x1000_0000;
    assert n / 512 < 0x8_0000;
    assert n / 512 / 512 < 0x400;
    assert n / 512 / 512 / 512 < 2;
  }

  // ------------------------------------------------------------------------
  // Entries as 64-bit words

  function Bit(b: bool): nat { if b then 1 else 0 }

  predicate Fits64(e: Word) { e.ppn < 0x10_0000_0000_0000 && e.rest < 256 }

  /** The word `page2pa(p) | flags`: P, W and U in bits 0 to 2, COW in bit 11. */
  function Encode(e: Word): nat {
    ((((e.ppn * 2 + Bit(e.cow)) * 256 + e.rest) * 2 + Bit(e.u)) * 2 + Bit(e.w)) * 2 + Bit(e.p)
  }

  function Decode(x: nat): Word {
    var y := x / 2 / 2 / 2;
    Word(y / 256 / 2, x % 2 == 1, x / 2 % 2 == 1, x / 2 / 2 % 2 == 1, y / 256 % 2 == 1, y % 256)
  }

  /** An entry written as a word is read back. */
  lemma EntryRoundTrip(e: Word)
    requires Fits64(e)
    ensures Decode(Encode(e)) == e && Encode(e) < 0x1_0000_0000_0000_0000
  {
    hide Encode, Decode, Bit;
    var a := e.ppn * 2 + Bit(e.cow);
    var b := a * 256 + e.rest;
    LowBits(b, e.u, e.w, e.p);
    LowByte(a, e.rest);
    LowBit(e.ppn, e.cow);
    EncodeBound(e, a);
    EncodeIs(e, b);
    DecodeIs(Encode(e), e, a, b);
  }

  lemma DecodeIs(x: nat, e: Word, a: nat, b: nat)
    requires x / 2 / 2 / 2 == b && (x % 2 == 1 <==> e.p) && (x / 2 % 2 == 1 <==> e.w) && (x / 2 / 2 % 2 == 1 <==> e.u)
    requires b / 256 == a && b % 256 == e.rest && a / 2 == e.ppn && (a % 2 == 1 <==> e.cow)
    ensures Decode(x) == e
  {
  }

  lemma EncodeIs(e: Word, b: nat)
    requires b == (e.ppn * 2 + Bit(e.cow)) * 256 + e.rest
    ensures Encode(e) == ((b * 2 + Bit(e.u)) * 2 + Bit(e.w)) * 2 + Bit(e.p)
  {
  }

  lemma LowBits(b: nat, u: bool, w: bool, p: bool)
    ensures var x := ((b * 2 + Bit(u)) * 2 + Bit(w)) * 2 + Bit(p);
            x / 2 / 2 / 2 == b && (x % 2 == 1 <==> p) && (x / 2 % 2 == 1 <==> w) && (x / 2 / 2 % 2 == 1 <==> u)
  {
    hide Bit;
    var c := b * 2 + Bit(u);
    var d := c * 2 + Bit(w);
    LowBit(d, p);
    LowBit(c, w);
    LowBit(b, u);
  }

  lemma EncodeBound(e: Word, a: nat)
    requires Fits64(e) && a == e.ppn * 2 + Bit(e.cow)
    ensures Encode(e) < 0x1_0000_0000_0000_0000
  {
    assert a < 0x20_0000_0000_0000;
    assert a * 256 + e.rest < 0x2000_0000_0000_0000;
  }

  lemma LowByte(a: nat, b: nat)
    requires b < 256
    ensures (a * 256 + b) / 256 == a && (a * 256 + b) % 256 == b
  {
  }

  lemma LowBit(a: nat, b: bool)
    ensures (a * 2 + Bit(b)) / 2 == a && ((a * 2 + Bit(b)) % 2 == 1 <==> b)
  {
  }

  lemma WordRoundTrip(x: nat)
    requires x < 0x1_0000_0000_0000_0000
    ensures Encode(Decode(x)) == x && Fits64(Decode(x))
  {
    var d := x / 2;
    var c := d / 2;
    var b := c / 2;
    var a := b / 256;
    assert x == d * 2 + x % 2 && d == c * 2 + d % 2 && c == b * 2 + c % 2 && b == a * 256 + b % 256
        && a == a / 2 * 2 + a % 2;
  }

  /** PTE_ADDR: the address of the frame an entry names. */
  function PteAddr(e: Word): nat { e.ppn * PAGE_SIZE }

  /** It is what is left of any 64-bit word when the flags are masked off. */
  lemma WordAddr(x: nat)
    requires x < 0x1_0000_0000_0000_0000
    ensures x - x % PAGE_SIZE == PteAddr(Decode(x))
  {
    hide Encode, Decode;
    WordRoundTrip(x);
    EntryAddr(Decode(x));
  }

  lemma EntryAddr(e: Word)
    requires Fits64(e)
    ensures Encode(e) - Encode(e) % PAGE_SIZE == PteAddr(e)
  {
    var f := (((Bit(e.cow) * 256 + e.rest) * 2 + Bit(e.u)) * 2 + Bit(e.w)) * 2 + Bit(e.p);
    assert f < 4096 && Encode(e) == e.ppn * 4096 + f;
    assert Encode(e) % 4096 == f;
  }
}
