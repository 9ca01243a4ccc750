/** The 32-bit loader: the free list, and the first page tables, of src/kernel/loader/loader.c. */
module Loader {
  import opened Mmu
  import opened PageTree
  import opened Queue
  import opened Memory
  import opened Growth

  // ------------------------------------------------------------------------
  // Addresses in a 32-bit program

  const GIB4: nat := 0x1_0000_0000

  /** page2pa as the loader computes it: the page number is a 32-bit `int`, so the shift wraps, and
      the result is extended to 64 bits with its sign. */
  function Page2Pa32(p: nat): nat {
    var x := p * PAGE_SIZE % GIB4;
    if x < 0x8000_0000 then x else x + 0xFFFF_FFFF_0000_0000
  }

  /** The frame that VADDR of a 64-bit physical address leads to in a 32-bit program without paging. */
  function Kva32(pa: nat): nat { pa % GIB4 / PAGE_SIZE }

  /** page2pa is right below 2 GB and nowhere else. */
  lemma Page2PaExact(p: nat)
    requires p < 0x80_0000
    ensures Page2Pa32(p) == p * PAGE_SIZE <==> p < 0x8_0000
  {
    hide Page2Pa32;
    Page2PaIs(p / 0x10_0000, p % 0x10_0000);
  }

  /** page2kva leads to the page itself below 4 GB and nowhere else. */
  lemma Page2KvaExact(p: nat)
    ensures Kva32(Page2Pa32(p)) == p % 0x10_0000
    ensures Kva32(Page2Pa32(p)) == p <==> p < 0x10_0000
  {
    hide Kva32, Page2Pa32;
    var low := p % 0x10_0000;
    Page2PaIs(p / 0x10_0000, low);
    KvaSigned(low);
  }

  lemma Page2PaIs(q: nat, low: nat)
    requires low < 0x10_0000
    ensures Page2Pa32(q * 0x10_0000 + low) == (if low < 0x8_0000 then low else low + SIGN) * PAGE_SIZE
  {
    var p := q * 0x10_0000 + low;
    assert p * PAGE_SIZE == q * GIB4 + low * PAGE_SIZE;
    GibMod(q, low * PAGE_SIZE);
  }

  lemma GibMod(q: nat, r: nat)
    requires r < GIB4
    ensures (q * GIB4 + r) % GIB4 == r
  {
  }

  const SIGN: nat := 0xF_FFFF_FFF0_0000

  /** The sign in the upper half of an address makes no difference to a 32-bit program. */
  lemma KvaSigned(d: nat)
    requires d < 0x10_0000
    ensures Kva32(d * PAGE_SIZE) == d && Kva32((d + SIGN) * PAGE_SIZE) == d
  {
    assert (d + SIGN) * PAGE_SIZE == 0xFFFF_FFFF * GIB4 + d * PAGE_SIZE;
    GibMod(0, d * PAGE_SIZE);
    GibMod(0xFFFF_FFFF, d * PAGE_SIZE);
  }

  /** The frame an entry with that address names to the processor. */
  function Frame32(p: nat): nat { Page2Pa32(p) / PAGE_SIZE }

  lemma Frame32Is(p: nat)
    ensures Frame32(p) == if p % 0x10_0000 < 0x8_0000 then p % 0x10_0000 else p % 0x10_0000 + SIGN
  {
    hide Page2Pa32;
    Page2PaIs(p / 0x10_0000, p % 0x10_0000);
  }

  /** page2pa(page) | P | W | U */
  function TableEntry(p: nat): Word { Word(Frame32(p), true, true, true, false, 0) }

  lemma TableEntryWord(p: nat)
    ensures Decode(Page2Pa32(p) + 7) == TableEntry(p)
  {
    hide Page2Pa32;
    var e := TableEntry(p);
    Page2PaIs(p / 0x10_0000, p % 0x10_0000);
    assert Page2Pa32(p) == Frame32(p) * PAGE_SIZE;
    assert Fits64(e) && Encode(e) == Page2Pa32(p) + 7;
    EntryRoundTrip(e);
  }

  /** An entry as the loader itself follows it, with the sign taken off its address. */
  function Soft(e: Word): Word {
    if e.ppn >= SIGN then e.(ppn := e.ppn - SIGN) else e
  }

  /** An entry as the loader sees it, or as the processor does. */
  function Look(soft: bool, e: Word): Word { if soft then Soft(e) else e }

  /** Both agree on table entries below 2 GB, the loader alone goes on to 4 GB. */
  function Reach(soft: bool): nat { if soft then 0x10_0000 else 0x8_0000 }

  lemma LookTable(soft: bool, p: nat)
    requires p < Reach(soft)
    ensures Look(soft, TableEntry(p)) == Word(p, true, true, true, false, 0)
  {
    Frame32Is(p);
  }

  lemma LookFollows(soft: bool, e: Word)
    requires Look(soft, e).ppn < 0x10_0000
    ensures Kva32(PteAddr(e)) == Look(soft, e).ppn
  {
    var d := Look(soft, e).ppn;
    KvaSigned(d);
    assert e.ppn == d || e.ppn == d + SIGN;
  }

  /** All of memory as the loader sees it, or as the processor does. */
  ghost function Looked(soft: bool, phys: seq<seq<Word>>): (r: seq<seq<Word>>)
    ensures |r| == |phys| && forall p :: 0 <= p < |phys| ==> |r[p]| == |phys[p]|
    ensures forall p, x :: 0 <= p < |phys| && 0 <= x < |phys[p]| ==> r[p][x] == Look(soft, phys[p][x])
    ensures !soft ==> r == phys
  {
    var r := seq(|phys|, p requires 0 <= p < |phys| =>
      seq(|phys[p]|, x requires 0 <= x < |phys[p]| => Look(soft, phys[p][x])));
    assert !soft ==> forall p :: 0 <= p < |phys| ==> r[p] == phys[p];
    r
  }

  lemma LookedZeros(soft: bool, phys: seq<seq<Word>>, Z: nat)
    requires Z < |phys|
    ensures Looked(soft, phys[Z := Zeros()]) == Looked(soft, phys)[Z := Zeros()]
  {
    var a, b := Looked(soft, phys[Z := Zeros()]), Looked(soft, phys)[Z := Zeros()];
    assert forall p :: 0 <= p < |phys| ==> a[p] == b[p];
  }

  lemma LookedSet(soft: bool, phys: seq<seq<Word>>, T: nat, i: nat, e: Word)
    requires T < |phys| && i < |phys[T]|
    ensures Looked(soft, phys[T := phys[T][i := e]]) ==
              Looked(soft, phys)[T := Looked(soft, phys)[T][i := Look(soft, e)]]
  {
    var was := Looked(soft, phys);
    var a, b := Looked(soft, phys[T := phys[T][i := e]]), was[T := was[T][i := Look(soft, e)]];
    assert forall p :: 0 <= p < |phys| ==> a[p] == b[p];
  }

  /** No entry names a frame between 2 GB and 4 GB. */
  ghost predicate Marked(ws: seq<Word>) {
    forall j :: 0 <= j < |ws| ==> !(0x8_0000 <= ws[j].ppn < 0x10_0000)
  }

  // ------------------------------------------------------------------------
  // The loader's state

  /** The loader's memory: one PML4, all of it private, and the page array. */
  datatype Load = Load(m: Mem, ref: seq<nat>, free: seq<nat>)

  ghost predicate Descending(f: seq<nat>) {
    forall i, j :: 0 <= i < j < |f| ==> f[i] > f[j]
  }

  /** The tables form a tree of used pages; a page off the free list is used exactly once, one on
      the list at most `most` times; and the list is strictly descending. */
  ghost predicate Sound(x: Load, most: nat) {
    && |x.ref| == |x.m.phys| && |x.m.roots| == 1 && x.m.roots[0] >= 0 && x.m.width == TABLE_SIZE
    && (forall p :: 0 <= p < |x.m.phys| ==> |x.m.phys[p]| == TABLE_SIZE)
    && Once(x.m, 5, TOP, 0)
    && (forall p: int :: Tables(x.m, p) > 0 ==> 0 <= p < |x.ref| && p < 0x10_0000 && p !in x.free)
    && (forall p: nat :: p < |x.ref| ==> if p in x.free then x.ref[p] <= most else x.ref[p] == 1)
    && (forall i :: 0 <= i < |x.free| ==> x.free[i] < |x.ref|) && Descending(x.free)
  }

  /** The entry for the virtual page with number `n`. */
  function Entry(m: Mem, n: nat): Word { Pte(m, Path(0, Nth(n))) }

  // ------------------------------------------------------------------------
  // mmap_lookup

  /** The first page of the list, the highest still free, has become an empty table. */
  function Taken(x: Load, N: nat, i: nat, e: Word): Load
    requires |x.free| > 0 && x.free[0] < |x.ref| == |x.m.phys| && N < |x.m.phys| && N != x.free[0] && i < |x.m.phys[N]|
  {
    Load(Hung(x.m, N, i, x.free[0], e), x.ref[x.free[0] := 1], x.free[1..])
  }

  /** The first page of the list is the highest that is free. */
  lemma HighestFirst(x: Load, most: nat, p: nat)
    requires Sound(x, most) && p in x.free
    ensures |x.free| > 0 && p <= x.free[0]
  {
    var i :| 0 <= i < |x.free| && x.free[i] == p;
  }

  /** No translation changes, and the list only loses its first pages. */
  ghost predicate Extends(x: Load, y: Load, most: nat) {
    && Sound(y, most) && |y.ref| == |x.ref| && y.m.roots == x.m.roots && y.m.width == x.m.width
    && (forall q: Path :: InTree(x.m, q) ==> Pte(y.m, q) == Pte(x.m, q))
    && |y.free| <= |x.free| && y.free == x.free[|x.free| - |y.free|..]
    && (forall p: nat :: p < |x.ref| && p in y.free ==> y.ref[p] == x.ref[p])
  }

  lemma TakeForest(x: Load, most: nat, q: Path, l: nat, N: nat, e: Word)
    requires Sound(x, most) && 2 <= l <= 4 && InTree(x.m, q) && Node(x.m, 5, TOP, q, l) == Some(N) && |x.free| > 0
    requires !At(x.m, N, Idx(q, l)).p && e.p && e.ppn == x.free[0] < 0x10_0000 && Plain(e)
    ensures N < |x.m.phys| && N != x.free[0] && Tables(x.m, x.free[0]) == 0 && |x.m.phys[N]| == TABLE_SIZE
    ensures var m' := Hung(x.m, N, Idx(q, l), x.free[0], e);
            && TableAdded(x.m, m', q.t, x.free[0]) && Node(m', 5, TOP, q, l - 1) == Some(x.free[0])
  {
    hide Cnt, Ent, Leaf, Once, Node, Slot;
    var Z := x.free[0];
    NodeIsTable(x.m, q, l);
    assert Z in x.free;
    var m1 := SetPage(x.m, Z, Zeros());
    SetPageSameBut(x.m, Z, Zeros());
    NonTable(x.m, m1, Z);
    SameOnce(x.m, m1);
    NodeKept(x.m, m1, q, l, Z);
    var m' := SetWord(m1, N, Idx(q, l), e);
    SetWordWrote(m1, N, Idx(q, l), e);
    LinkTable(m1, m', q, l, N, Z, e);
    WroteNode(m1, m', 5, TOP, q, l, N, e);
    NodeStep(m', 5, TOP, q, l - 1);
  }

  lemma NodeKept(m: Mem, m1: Mem, q: Path, l: nat, Z: int)
    requires SameBut(m, m1, Z) && Tables(m, Z) == 0 && Z != TOP && InTree(m, q) && 1 <= l <= 5
    ensures Node(m1, 5, TOP, q, l) == Node(m, 5, TOP, q, l)
  {
    FrameNode(m, m1, 5, TOP, q, l);
  }

  lemma TakeSound(x: Load, most: nat, q: Path, l: nat, N: nat, e: Word)
    requires Sound(x, most) && 2 <= l <= 4 && InTree(x.m, q) && Node(x.m, 5, TOP, q, l) == Some(N) && |x.free| > 0
    requires !At(x.m, N, Idx(q, l)).p && e.p && e.ppn == x.free[0] < 0x10_0000 && Plain(e)
    ensures N < |x.m.phys| && N != x.free[0] && |x.m.phys[N]| == TABLE_SIZE
    ensures Extends(x, Taken(x, N, Idx(q, l), e), most)
    ensures Node(Taken(x, N, Idx(q, l), e).m, 5, TOP, q, l - 1) == Some(e.ppn)
  {
    hide Cnt, Ent, Leaf, Node, Slot, Tables, Once, Descending, Hung;
    TakeForest(x, most, q, l, N, e);
    var y, Z := Taken(x, N, Idx(q, l), e), x.free[0];
    TakeOnce(x.m, y.m, q.t, Z);
    TakeList(x.free);
    TakeShape(x, N, Idx(q, l), e);
  }

  lemma TakeShape(x: Load, N: nat, i: nat, e: Word)
    requires |x.free| > 0 && x.free[0] < |x.ref| == |x.m.phys| && N < |x.m.phys| && N != x.free[0] && i < |x.m.phys[N]|
    requires forall p :: 0 <= p < |x.m.phys| ==> |x.m.phys[p]| == TABLE_SIZE
    ensures var m := Taken(x, N, i, e).m; m.roots == x.m.roots && m.width == x.m.width && |m.phys| == |x.m.phys|
    ensures forall p :: 0 <= p < |x.m.phys| ==> |Taken(x, N, i, e).m.phys[p]| == TABLE_SIZE
  {
  }

  lemma TakeOnce(m: Mem, m': Mem, t: nat, Z: int)
    requires Once(m, 5, TOP, 0) && TableAdded(m, m', t, Z) && Tables(m, Z) == 0 && Z != TOP
    ensures Once(m', 5, TOP, 0)
  {
    hide Cnt;
    forall p: int ensures Cnt(m', 5, TOP, 0, p, false) == Cnt(m, 5, TOP, 0, p, false) + (if p == Z then 1 else 0) {
      assert Tables(m', p) == Tables(m, p) + (if p == Z then 1 else 0);
    }
  }

  lemma TakeList(f: seq<nat>)
    requires |f| > 0 && Descending(f)
    ensures Descending(f[1..]) && f[1..] == f[|f| - |f[1..]|..] && forall p: nat :: p in f[1..] <==> p in f && p != f[0]
  {
  }

  /** Of the PML4, only entry `i` may have changed, from absent to naming the first free page. */
  ghost predicate RootKept(x: Load, y: Load, i: nat) {
    && |x.m.roots| > 0 && y.m.roots == x.m.roots
    && (forall j: nat :: j != i || At(x.m, x.m.roots[0], j).p ==> At(y.m, x.m.roots[0], j) == At(x.m, x.m.roots[0], j))
    && (At(y.m, x.m.roots[0], i).p && !At(x.m, x.m.roots[0], i).p ==>
        |x.free| > 0 && At(y.m, x.m.roots[0], i).ppn == x.free[0])
  }

  lemma RootKeptRefl(x: Load, i: nat)
    requires |x.m.roots| > 0
    ensures RootKept(x, x, i)
  {
  }

  lemma RootStays(x: Load, y: Load, i: nat)
    requires RootKept(x, y, i) && At(x.m, x.m.roots[0], i).p
    ensures At(y.m, x.m.roots[0], i) == At(x.m, x.m.roots[0], i)
  {
  }

  /** Once the entry is there it stays. */
  lemma RootKeptTrans(x: Load, y: Load, z: Load, i: nat)
    requires RootKept(x, y, i) && RootKept(y, z, i) && At(y.m, y.m.roots[0], i).p
    ensures RootKept(x, z, i)
  {
  }

  lemma TakeRoot(x: Load, most: nat, q: Path, l: nat, N: nat, e: Word)
    requires Sound(x, most) && 2 <= l <= 4 && InTree(x.m, q) && Node(x.m, 5, TOP, q, l) == Some(N) && |x.free| > 0
    requires N < |x.m.phys| && N != x.free[0] && |x.m.phys[N]| == TABLE_SIZE
    requires !At(x.m, N, Idx(q, l)).p && e.ppn == x.free[0]
    ensures RootKept(x, Taken(x, N, Idx(q, l), e), q.v.i4)
  {
    hide Cnt, Ent, Leaf, Once;
    RootIsTable(x.m, 0);
    assert x.free[0] in x.free;
    if l < 4 { RootsApart(x.m, q, l, 0); }
  }

  lemma ExtendsRefl(x: Load, most: nat)
    requires Sound(x, most)
    ensures Extends(x, x, most)
  {
  }

  lemma ExtendsTrans(x: Load, y: Load, z: Load, most: nat)
    requires Extends(x, y, most) && Extends(y, z, most)
    ensures Extends(x, z, most)
  {
  }

  class Loader {
    var phys: seq<seq<Word>>
    var ref: seq<nat>
    const free: List
    const pml4: nat

    ghost predicate Valid()
      reads this, free.Repr()
    {
      && free.Valid() && free.next.Length == |ref| == |phys|
      && OffListZero(free.next[..], free.prev[..], free.elems)
      && pml4 < |phys| && Marked(phys[pml4])
    }

    /** The state as the loader sees it, or as the processor does. */
    ghost function L(soft: bool): Load
      reads this, free
    {
      Load(Mem(Looked(soft, phys), [pml4], TABLE_SIZE), ref, free.elems)
    }

    /** Memory before any page is on the list: zeroed counts and links, an empty PML4. */
    constructor (phys: seq<seq<Word>>, pml4: nat)
      requires pml4 < |phys| && (forall p :: 0 <= p < |phys| ==> |phys[p]| == TABLE_SIZE)
      ensures Valid() && this.pml4 == pml4 && this.phys == phys[pml4 := Zeros()]
      ensures ref == seq(|phys|, _ => 0) && free.elems == []
      ensures fresh(free) && fresh(free.next) && fresh(free.prev)
    {
      this.phys, this.pml4 := phys[pml4 := Zeros()], pml4;
      ref := seq(|phys|, _ => 0);
      free := new List(|phys|);
    }
  }

  lemma OffListDetached(next: seq<int>, prev: seq<Back>, f: seq<nat>, i: nat, next1: seq<int>, prev1: seq<Back>,
          next2: seq<int>, prev2: seq<Back>)
    requires |next| == |prev| == |next1| == |prev1| == |next2| == |prev2| && i < |f| && f[i] < |next| && NoDup(f)
    requires OffListZero(next, prev, f)
    requires forall y: nat :: y < |next| && y !in f ==> next1[y] == next[y] && prev1[y] == prev[y]
    requires next2 == next1[f[i] := NULL] && prev2 == prev1[f[i] := Nil]
    ensures OffListZero(next2, prev2, Without(f, i))
  {
    WithoutMembers(f, i);
  }

  /** LIST_REMOVE and the zeroing of the links. */
  method Detach(list: List, x: nat, ghost i: nat)
    requires list.Valid() && OffListZero(list.next[..], list.prev[..], list.elems) && i < |list.elems|
    requires list.elems[i] == x
    modifies list.Repr()
    ensures list.Valid() && OffListZero(list.next[..], list.prev[..], list.elems)
    ensures list.elems == Without(old(list.elems), i)
  {
    hide Linked, OffListZero, Without;
    ghost var nx, pv, f := list.next[..], list.prev[..], list.elems;
    Neighbours(nx, pv, list.first, f, i);
    LinkedNoDup(nx, pv, list.first, f);
    list.Remove(x, i);
    ghost var nx1, pv1 := list.next[..], list.prev[..];
    list.Clear(x);
    assert list.next[..] == nx1[x := NULL] && list.prev[..] == pv1[x := Nil];
    OffListDetached(nx, pv, f, i, nx1, pv1, list.next[..], list.prev[..]);
  }

  lemma LinkedNoDup(next: seq<int>, prev: seq<Back>, first: int, f: seq<nat>)
    requires Linked(next, prev, first, f)
    ensures NoDup(f) && |next| == |prev|
  {
  }

  /** page_alloc */
  method Alloc(k: Loader) returns (p: int)
    requires k.Valid()
    modifies k`ref, k.free.Repr()
    ensures k.Valid()
    ensures |old(k.free.elems)| == 0 ==> p == NULL && k.free.elems == [] && k.ref == old(k.ref)
    ensures |old(k.free.elems)| > 0 ==> p == old(k.free.elems[0]) < |k.ref| && k.free.elems == old(k.free.elems)[1..]
    ensures |old(k.free.elems)| > 0 ==> k.ref == old(k.ref)[p := 0]
  {
    hide Linked, OffListZero, Marked;
    p := k.free.First();
    if p != NULL {
      Detach(k.free, p, 0);
      k.ref := k.ref[p := 0];
    }
  }

  /** Stands for a table page from 4 GB up: page2kva leads to some other page. What the loader does
      after it has written its table there is not followed any further. */
  const ASTRAY: int := -2

  /** Memory after the page `C` has become a table for entry `i` of the table `T`: the zeros go to the
      page that the 32-bit address of `C` leads to. */
  function Strayed(phys: seq<seq<Word>>, T: nat, i: nat, C: nat): seq<seq<Word>>
    requires C % 0x10_0000 < |phys| && T < |phys| && i < |phys[T]| && i < TABLE_SIZE
  {
    var ph := phys[C % 0x10_0000 := Zeros()];
    ph[T := ph[T][i := TableEntry(C)]]
  }

  /** The loader has gone astray at its first table for entry `i` of its PML4. */
  ghost predicate StrayedFrom(phys: seq<seq<Word>>, f: seq<nat>, phys': seq<seq<Word>>, f': seq<nat>, T: nat, i: nat) {
    && |f| > 0 && f[0] % 0x10_0000 < |phys| && T < |phys| && i < |phys[T]| && i < TABLE_SIZE
    && phys' == Strayed(phys, T, i, f[0]) && f' == f[1..]
  }

  /** The first page on the list cannot be addressed by the loader. */
  ghost predicate OutOfReach(f: seq<nat>) { |f| > 0 && f[0] >= 0x10_0000 }

  /** The processor follows the loader's tables as the loader does if they all lie below 2 GB. */
  ghost predicate AllLow(soft: bool, f: seq<nat>) {
    soft || forall i :: 0 <= i < |f| ==> f[i] < 0x8_0000
  }

  /** A new table in page `C`, just taken from the list, for entry `i` of the table `T`. */
  method Hang(k: Loader, T: nat, i: Index, C: nat, ghost soft: bool, ghost x: Load)
    requires k.Valid() && |x.free| > 0 && C == x.free[0] < Reach(soft) && C < |k.ref| == |x.ref|
    requires x.m == Mem(Looked(soft, k.phys), [k.pml4], TABLE_SIZE) && k.ref == x.ref[C := 0]
    requires k.free.elems == x.free[1..]
    requires T < |k.phys| && |k.phys[T]| == TABLE_SIZE && T != C && |k.phys[k.pml4]| == TABLE_SIZE
    modifies k`phys, k`ref
    ensures k.Valid() && k.L(soft) == Taken(x, T, i, Word(C, true, true, true, false, 0))
  {
    hide Linked, OffListZero, Page2Pa32, Kva32, Look, Looked, TableEntry;
    var pa := Page2Pa32(C);
    Page2KvaExact(C);
    TableEntryWord(C);
    LookTable(soft, C);
    MarkedTable(C);
    ghost var ph := k.phys;
    k.phys := k.phys[Kva32(pa) := Zeros()];
    LookedZeros(soft, ph, C);
    k.ref := k.ref[C := 1];
    ghost var ph1 := k.phys;
    k.phys := k.phys[T := k.phys[T][i := Decode(pa + 7)]];
    LookedSet(soft, ph1, T, i, TableEntry(C));
    assert k.ref == x.ref[C := 1];
  }

  lemma MarkedTable(p: nat)
    ensures !(0x8_0000 <= TableEntry(p).ppn < 0x10_0000)
  {
    Frame32Is(p);
  }

  /** The same with a page from 4 GB up. */
  method HangAstray(k: Loader, T: nat, i: Index, C: nat)
    requires k.Valid() && 0x10_0000 <= C < |k.ref| && T < |k.phys| && |k.phys[T]| == TABLE_SIZE
    modifies k`phys, k`ref
    ensures k.Valid() && k.phys == Strayed(old(k.phys), T, i, C) && k.ref == old(k.ref)[C := 1]
  {
    hide Linked, OffListZero, Page2Pa32, Kva32, TableEntry;
    var pa := Page2Pa32(C);
    Page2KvaExact(C);
    TableEntryWord(C);
    MarkedTable(C);
    k.phys := k.phys[Kva32(pa) := Zeros()];
    k.ref := k.ref[C := 1];
    k.phys := k.phys[T := k.phys[T][i := Decode(pa + 7)]];
  }

  /** One level of mmap_lookup with create. */
  method Descend(k: Loader, T: nat, i: Index, ghost q: Path, ghost l: nat, ghost most: nat, ghost soft: bool)
    returns (C: int)
    requires k.Valid() && Sound(k.L(soft), most) && AllLow(soft, k.free.elems) && InTree(k.L(soft).m, q) && 2 <= l <= 4
    requires i == Idx(q, l) && Node(k.L(soft).m, 5, TOP, q, l) == Some(T)
    modifies k`phys, k`ref, k.free.Repr()
    ensures k.Valid() && (C == NULL ==> k.free.elems == [])
    ensures C == ASTRAY <==> !At(old(k.L(soft)).m, T, i).p && OutOfReach(old(k.free.elems))
    ensures C == ASTRAY ==> StrayedFrom(old(k.phys), old(k.free.elems), k.phys, k.free.elems, T, i)
    ensures C != ASTRAY ==> Extends(old(k.L(soft)), k.L(soft), most) && RootKept(old(k.L(soft)), k.L(soft), q.v.i4)
    ensures C != ASTRAY && C != NULL ==> C >= 0 && Node(k.L(soft).m, 5, TOP, q, l - 1) == Some(C)
    ensures C == NULL || Node(old(k.L(soft)).m, 5, TOP, q, l - 1).Some? ==> k.L(soft) == old(k.L(soft))
    ensures Node(old(k.L(soft)).m, 5, TOP, q, l - 1).Some? ==> C != NULL && C != ASTRAY
    ensures C == NULL ==> Node(k.L(soft).m, 5, TOP, q, l - 1) == None
    ensures C != ASTRAY && C != NULL ==> Sprouted(old(k.L(soft)).m, k.L(soft).m, q, l - 1)
    ensures C != ASTRAY && C != NULL && Node(old(k.L(soft)).m, 5, TOP, q, l - 1).None? ==>
              |k.free.elems| == |old(k.free.elems)| - 1 && (l > 2 ==> Node(k.L(soft).m, 5, TOP, q, l - 2) == None)
  {
    hide Sound, Extends, Node, Linked, OffListZero, Marked, RootKept, Look, Looked, Kva32, Sprouted;
    ghost var x := k.L(soft);
    ExtendsRefl(x, most);
    RootKeptRefl(x, q.v.i4);
    TableThere(x, most, q, l);
    NodeStep(x.m, 5, TOP, q, l - 1);
    assert At(x.m, T, i) == Look(soft, k.phys[T][i]);
    LookFlags(soft, k.phys[T][i]);
    if k.phys[T][i].p {
      TableThere(x, most, q, l - 1);
      LookFollows(soft, k.phys[T][i]);
      FoundSprouts(x.m, q, l - 1);
      return Kva32(PteAddr(k.phys[T][i]));
    }
    C := Alloc(k);
    if C == NULL {
      return;
    }
    if C >= 0x10_0000 {
      HangAstray(k, T, i, C);
      return ASTRAY;
    }
    ghost var e := Word(C, true, true, true, false, 0);
    TakeSound(x, most, q, l, T, e);
    TakeRoot(x, most, q, l, T, e);
    TakeSprouts(x, most, q, l, T, e);
    RootRange(x, most);
    Hang(k, T, i, C, soft, x);
    if l > 2 { NodeStep(k.L(soft).m, 5, TOP, q, l - 2); }
  }

  lemma TakeSprouts(x: Load, most: nat, q: Path, l: nat, N: nat, e: Word)
    requires Sound(x, most) && 2 <= l <= 4 && InTree(x.m, q) && Node(x.m, 5, TOP, q, l) == Some(N) && |x.free| > 0
    requires !At(x.m, N, Idx(q, l)).p && e.p && e.ppn == x.free[0] < 0x10_0000 && Plain(e)
    requires N < |x.m.phys| && N != x.free[0] && |x.m.phys[N]| == TABLE_SIZE
    ensures Sprouted(x.m, Taken(x, N, Idx(q, l), e).m, q, l - 1)
    ensures forall y: nat :: At(Taken(x, N, Idx(q, l), e).m, x.free[0], y) == ZERO
  {
    hide Cnt, Ent, Node, Sprouted;
    assert x.free[0] in x.free;
    HungSprouts(x.m, q, l, N, x.free[0], e);
  }

  lemma LookFlags(soft: bool, e: Word)
    ensures Look(soft, e).p == e.p
  {
  }

  lemma RootRange(x: Load, most: nat)
    requires Sound(x, most)
    ensures 0 <= x.m.roots[0] < |x.m.phys| && |x.m.phys[x.m.roots[0]]| == TABLE_SIZE && |x.ref| == |x.m.phys|
  {
    RootIsTable(x.m, 0);
  }

  lemma TableThere(x: Load, most: nat, q: Path, l: nat)
    requires Sound(x, most) && InTree(x.m, q) && 1 <= l <= 4 && Node(x.m, 5, TOP, q, l).Some?
    ensures var N := Node(x.m, 5, TOP, q, l).value;
            && 0 <= N < |x.m.phys| && |x.m.phys[N]| == TABLE_SIZE && N !in x.free && N < 0x10_0000 && Tables(x.m, N) > 0
  {
    NodeIsTable(x.m, q, l);
  }

  /** mmap_lookup with create: the page table for `va`, or NULL when the list is empty. */
  method Lookup(k: Loader, va: nat, ghost most: nat, ghost soft: bool) returns (T: int)
    requires k.Valid() && Sound(k.L(soft), most) && AllLow(soft, k.free.elems)
    modifies k`phys, k`ref, k.free.Repr()
    ensures k.Valid() && (T == NULL ==> k.free.elems == [])
    ensures T == ASTRAY ==> OutOfReach(old(k.free.elems))
    ensures !At(old(k.L(soft)).m, k.pml4, PageOfAddr(va).i4).p && OutOfReach(old(k.free.elems)) ==>
              && T == ASTRAY
              && StrayedFrom(old(k.phys), old(k.free.elems), k.phys, k.free.elems, k.pml4, PageOfAddr(va).i4)
    ensures T != ASTRAY ==> Extends(old(k.L(soft)), k.L(soft), most)
    ensures T != ASTRAY ==> RootKept(old(k.L(soft)), k.L(soft), PageOfAddr(va).i4)
    ensures T != ASTRAY && T != NULL ==> T >= 0 && Node(k.L(soft).m, 5, TOP, PathOf(0, va), 1) == Some(T)
    ensures T != ASTRAY && T != NULL ==> At(k.L(soft).m, k.pml4, PageOfAddr(va).i4).p
    ensures T != ASTRAY ==> (T == NULL <==> |old(k.free.elems)| < Missing(old(k.L(soft)).m, k.pml4, PathOf(0, va)))
    ensures T != ASTRAY && T != NULL ==>
              |k.free.elems| == |old(k.free.elems)| - Missing(old(k.L(soft)).m, k.pml4, PathOf(0, va))
    ensures T != ASTRAY && T != NULL ==> Sprouted(old(k.L(soft)).m, k.L(soft).m, PathOf(0, va), 1)
  {
    hide Sound, Extends, Node, Linked, OffListZero, Marked, RootKept, Looked, PageOfAddr, AllLow, At, Sprouted;
    hide Missing, Reached, StrayedFrom;
    var v := PageOfAddr(va);
    ghost var x, q := k.L(soft), PathOf(0, va);
    ReachStart(x, most, q, soft);
    var pdp := Descend(k, k.pml4, v.i4, q, 4, most, soft);
    if pdp == NULL { ReachFail(x, x, most, q, 3); }
    if pdp == NULL || pdp == ASTRAY {
      return pdp;
    }
    ghost var x1 := k.L(soft);
    ReachStep(x, x, x1, most, q, 3, soft);
    var pd := Descend(k, pdp, v.i3, q, 3, most, soft);
    if pd == NULL { ReachFail(x, x1, most, q, 2); }
    if pd == NULL || pd == ASTRAY {
      return pd;
    }
    ghost var x2 := k.L(soft);
    ReachStep(x, x1, x2, most, q, 2, soft);
    T := Descend(k, pd, v.i2, q, 2, most, soft);
    if T == NULL { ReachFail(x, x2, most, q, 1); }
    if T != NULL && T != ASTRAY { ReachStep(x, x2, k.L(soft), most, q, 1, soft); ReachDone(x, k.L(soft), most, q); }
  }

  // ------------------------------------------------------------------------
  // The walk, level by level

  /** How many tables are missing on the way to `q` from level 3 down to level `l`. */
  function MissingTo(m: Mem, q: Path, l: nat): nat
    decreases 4 - l
  {
    if l >= 4 then 0 else MissingTo(m, q, l + 1) + if Node(m, 5, TOP, q, l).None? then 1 else 0
  }

  /** The walk along `q` has come down to level `l`, and from `x` to `y`, making the missing tables. */
  ghost predicate Reached(x: Load, y: Load, most: nat, q: Path, l: nat) {
    && Sound(x, most) && q.t == 0 && InTree(x.m, q) && Extends(x, y, most) && RootKept(x, y, q.v.i4)
    && (if l < 4 then At(y.m, x.m.roots[0], q.v.i4).p else y == x)
    && Sprouted(x.m, y.m, q, l) && Node(y.m, 5, TOP, q, l).Some? && |y.free| + MissingTo(x.m, q, l) == |x.free|
  }

  lemma ReachStart(x: Load, most: nat, q: Path, soft: bool)
    requires Sound(x, most) && q.t == 0
    ensures Reached(x, x, most, q, 4) && InTree(x.m, q) && |x.m.roots| == 1
    ensures Node(x.m, 5, TOP, q, 4) == Some(x.m.roots[0])
  {
    hide Node, Once, Cnt;
    RootNode(x, most, q);
    SproutedRefl(x.m, q);
  }

  lemma ReachStep(x: Load, y: Load, z: Load, most: nat, q: Path, l: nat, soft: bool)
    requires Reached(x, y, most, q, l + 1) && 1 <= l <= 3 && AllLow(soft, x.free) && Node(z.m, 5, TOP, q, l).Some?
    requires Extends(y, z, most) && RootKept(y, z, q.v.i4) && Sprouted(y.m, z.m, q, l)
    requires if Node(y.m, 5, TOP, q, l).Some? then z == y else |z.free| == |y.free| - 1
    ensures Reached(x, z, most, q, l) && Sound(z, most) && AllLow(soft, z.free) && InTree(z.m, q)
    ensures OutOfReach(z.free) ==> OutOfReach(x.free)
  {
    hide Node, Sound, Sprouted, At, Extends, RootKept;
    ReachShape(x, y, most, q, l + 1);
    ExtendsTrans(x, y, z, most);
    StillSound(x, z, most, soft);
    ExtendsShape(x, z, most);
    SproutedTrans(x.m, y.m, z.m, q, l);
    SproutedSelf(x.m, y.m, q, l);
    if |z.free| > 0 { FirstOf(x, z, most); }
    if l == 3 {
      FirstEntry(z, most, q);
    } else {
      RootStays(y, z, q.v.i4);
      RootKeptTrans(x, y, z, q.v.i4);
    }
  }

  /** Without a free page for a missing table there were too few to begin with. */
  lemma ReachFail(x: Load, y: Load, most: nat, q: Path, l: nat)
    requires Reached(x, y, most, q, l + 1) && 1 <= l <= 3 && Node(y.m, 5, TOP, q, l) == None && y.free == []
    ensures |x.m.roots| == 1 && |x.free| < Missing(x.m, x.m.roots[0], q)
    ensures Extends(x, y, most) && RootKept(x, y, q.v.i4)
  {
    hide Node, Sound, Sprouted, At, Extends, RootKept, Missing;
    SproutedSelf(x.m, y.m, q, l);
    MissingIsTo(x, most, q);
    if l > 1 { WalkStops(x, most, q, l); }
  }

  lemma ReachDone(x: Load, y: Load, most: nat, q: Path)
    requires Reached(x, y, most, q, 1)
    ensures |x.m.roots| == 1 && |y.free| + Missing(x.m, x.m.roots[0], q) == |x.free|
    ensures Extends(x, y, most) && RootKept(x, y, q.v.i4) && Sprouted(x.m, y.m, q, 1) && At(y.m, x.m.roots[0], q.v.i4).p
  {
    hide Node, Sound, Sprouted, At, Extends, RootKept, Missing;
    MissingIsTo(x, most, q);
  }

  lemma ExtendsShape(x: Load, y: Load, most: nat)
    requires Extends(x, y, most)
    ensures SameShape(x.m, y.m)
  {
  }

  lemma ReachShape(x: Load, y: Load, most: nat, q: Path, l: nat)
    requires Reached(x, y, most, q, l)
    ensures SameShape(x.m, y.m) && y.m.roots == x.m.roots && |x.m.roots| == 1
  {
    hide Once, Cnt;
  }

  lemma SproutedSelf(m: Mem, m': Mem, q: Path, l: nat)
    requires Sprouted(m, m', q, l + 1) && 1 <= l <= 3 && q.v.i4 < m.width
    ensures Node(m', 5, TOP, q, l).Some? <==> Node(m, 5, TOP, q, l).Some?
  {
    hide Node;
    assert Path(q.t, q.v) == q;
  }

  /** A walk that stops stops for good. */
  lemma WalkStops(x: Load, most: nat, q: Path, l: nat)
    requires Sound(x, most) && q.t == 0 && 2 <= l <= 3 && Node(x.m, 5, TOP, q, l).None?
    ensures Node(x.m, 5, TOP, q, l - 1).None?
  {
    NodeStep(x.m, 5, TOP, q, l - 1);
  }

  lemma MissingIsTo(x: Load, most: nat, q: Path)
    requires Sound(x, most) && q.t == 0
    ensures |x.m.roots| == 1 && Missing(x.m, x.m.roots[0], q) == MissingTo(x.m, q, 1)
    ensures MissingTo(x.m, q, 1) == MissingTo(x.m, q, 2) + if Node(x.m, 5, TOP, q, 1).None? then 1 else 0
    ensures MissingTo(x.m, q, 2) == MissingTo(x.m, q, 3) + if Node(x.m, 5, TOP, q, 2).None? then 1 else 0
    ensures MissingTo(x.m, q, 3) == if Node(x.m, 5, TOP, q, 3).None? then 1 else 0
  {
    RootLeaf(x.m, x.m.roots[0], q);
    WalkLevels(x.m, x.m.roots[0], q);
    assert MissingTo(x.m, q, 4) == 0;
  }

  /** A walk that goes on has found its entry in the PML4. */
  lemma FirstEntry(x: Load, most: nat, q: Path)
    requires Sound(x, most) && q.t == 0 && Node(x.m, 5, TOP, q, 3).Some?
    ensures At(x.m, x.m.roots[0], q.v.i4).p
  {
  }

  /** The list gives its highest page first. */
  lemma FirstOf(x: Load, y: Load, most: nat)
    requires Sound(x, most) && Extends(x, y, most) && |y.free| > 0
    ensures |x.free| > 0 && x.free[0] >= y.free[0]
  {
  }

  lemma RootNode(x: Load, most: nat, q: Path)
    requires Sound(x, most) && q.t == 0
    ensures |x.m.roots| == 1 && InTree(x.m, q) && Node(x.m, 5, TOP, q, 4) == Some(x.m.roots[0])
  {
  }

  lemma StillSound(x: Load, y: Load, most: nat, soft: bool)
    requires Extends(x, y, most) && AllLow(soft, x.free)
    ensures Sound(y, most) && AllLow(soft, y.free)
  {
  }

  // ------------------------------------------------------------------------
  // loader_map_section

  /** PTE_ADDR(pa) | PTE_P | PTE_W */
  function Frame(p: nat): Word { Word(p, true, true, false, false, 0) }

  /** Pages to keep leave the list when they are mapped; the others stay on it, used at most once. */
  function Most(hard: bool): nat { if hard then 0 else 1 }

  function Placed(x: Load, T: nat, i: nat, p: nat, hard: bool, j: nat): Load
    requires T < |x.m.phys| && i < |x.m.phys[T]| && p < |x.ref|
    requires x.ref[p] == 0 && hard ==> j < |x.free|
  {
    var m := SetWord(x.m, T, i, Frame(p));
    if x.ref[p] != 0 then x.(m := m)
    else Load(m, x.ref[p := 1], if hard then Without(x.free, j) else x.free)
  }

  /** Used pages stay used, the list only loses pages, and nothing else moves. */
  ghost predicate Onward(x: Load, y: Load) {
    && |y.ref| == |x.ref| && y.m.roots == x.m.roots && y.m.width == x.m.width
    && (forall r: nat :: r in y.free ==> r in x.free)
    && (forall r: nat :: r < |x.ref| && x.ref[r] == 1 ==> y.ref[r] == 1)
  }

  lemma ExtendsOnward(x: Load, y: Load, most: nat)
    requires Sound(x, most) && most <= 1 && Extends(x, y, most)
    ensures Onward(x, y)
  {
    forall r: nat | r < |x.ref| && x.ref[r] == 1 ensures y.ref[r] == 1 {
      if r in y.free {} else {}
    }
  }

  /** The entries of virtual pages `n..n + cnt` name the frames from `p` on, all others are as
      they were. */
  ghost predicate Section(m: Mem, m': Mem, n: nat, p: nat, cnt: nat) {
    forall i: nat :: i < LIMIT ==> Entry(m', i) == if n <= i < n + cnt then Frame(p + i - n) else Entry(m, i)
  }

  lemma PlaceEntries(x: Load, hard: bool, n: nat, T: nat, p: nat, m': Mem)
    requires Sound(x, Most(hard)) && n < LIMIT && Node(x.m, 5, TOP, Path(0, Nth(n)), 1) == Some(T) && p < |x.ref|
    requires T < |x.m.phys| && |x.m.phys[T]| == TABLE_SIZE && m' == SetWord(x.m, T, Nth(n).i1, Frame(p))
    ensures Section(x.m, m', n, p, 1) && Once(m', 5, TOP, 0) && forall r: int :: Tables(m', r) == Tables(x.m, r)
  {
    hide Cnt, Ent, Leaf, Once, Node, Slot, Nth;
    var q := Path(0, Nth(n));
    SetWordWrote(x.m, T, q.v.i1, Frame(p));
    WritePte(x.m, m', q, T, Frame(p));
    SameOnce(x.m, m');
    forall i: nat | i < LIMIT ensures Entry(m', i) == if i == n then Frame(p) else Entry(x.m, i) {
      if Nth(i) == Nth(n) { NthInjective(i, n); }
      assert InTree(x.m, Path(0, Nth(i)));
    }
  }

  lemma PlaceSound(x: Load, hard: bool, n: nat, T: nat, p: nat, j: nat)
    requires Sound(x, Most(hard)) && n < LIMIT && Node(x.m, 5, TOP, Path(0, Nth(n)), 1) == Some(T) && p < |x.ref|
    requires T < |x.m.phys| && |x.m.phys[T]| == TABLE_SIZE && (x.ref[p] == 0 && hard ==> j < |x.free| && x.free[j] == p)
    ensures var y := Placed(x, T, Nth(n).i1, p, hard, j);
            && Sound(y, Most(hard)) && Onward(x, y) && y.ref[p] == 1 && (hard ==> p !in y.free)
  {
    hide Cnt, Ent, Leaf, Once, Node, Slot, Nth, Tables, Without;
    var y := Placed(x, T, Nth(n).i1, p, hard, j);
    PlaceEntries(x, hard, n, T, p, y.m);
    if x.ref[p] == 0 && hard {
      DescendingNoDup(x.free);
      WithoutMembers(x.free, j);
      DescendingWithout(x.free, j);
    }
  }

  lemma DescendingNoDup(f: seq<nat>)
    requires Descending(f)
    ensures NoDup(f)
  {
  }

  lemma DescendingWithout(f: seq<nat>, j: nat)
    requires Descending(f) && j < |f|
    ensures Descending(Without(f, j)) && forall i :: 0 <= i < |f| - 1 ==> Without(f, j)[i] in f
  {
  }

  lemma PlaceRoot(x: Load, hard: bool, n: nat, T: nat, e: Word)
    requires Sound(x, Most(hard)) && Node(x.m, 5, TOP, Path(0, Nth(n)), 1) == Some(T) && T < |x.m.phys|
    requires |x.m.phys[T]| == TABLE_SIZE
    ensures T != x.m.roots[0] && (forall y: Load :: y.m == SetWord(x.m, T, Nth(n).i1, e) ==> RootKept(x, y, Nth(n).i4))
  {
    hide Cnt, Ent, Leaf, Once;
    RootsApart(x.m, Path(0, Nth(n)), 1, 0);
  }
}
