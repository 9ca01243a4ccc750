/** loader_init_memory of src/kernel/loader/loader.c: the free list and the first mappings. */
module LoaderInit {
  import opened Mmu
  import opened PageTree
  import opened Queue
  import opened Memory
  import opened Radix
  import opened Growth
  import opened Loader
  import opened Stock
  import opened Sections

  // ------------------------------------------------------------------------
  // The free list

  /** The available pages below `i`, the highest first. */
  function Down(avail: seq<bool>, i: nat): seq<nat>
    requires i <= |avail|
  {
    if i == 0 then [] else (if avail[i - 1] then [i - 1] else []) + Down(avail, i - 1)
  }

  /** The available pages below `i` are on the list, highest first; the others are in use. */
  ghost predicate ListFilled(x: Load, avail: seq<bool>, i: nat) {
    && |x.ref| == |avail| && i <= |avail| && Descending(x.free) && x.free == Down(avail, i)
    && (forall p: nat :: p in x.free <==> p < i && avail[p])
    && (forall p: nat :: p < |avail| ==> x.ref[p] == if p < i && !avail[p] then 1 else 0)
  }

  method FillFree(k: Loader, avail: seq<bool>)
    requires k.Valid() && k.free.elems == [] && k.ref == seq(|k.phys|, _ => 0) && |avail| == |k.phys|
    modifies k`ref, k.free.Repr()
    ensures k.Valid() && forall soft :: ListFilled(k.L(soft), avail, |avail|)
  {
    hide Linked, OffListZero, Marked;
    for i := 0 to |avail|
      invariant k.Valid() && ListFilled(k.L(false), avail, i)
    {
      if !avail[i] {
        k.ref := k.ref[i := 1];
      } else {
        ghost var f, nx, pv := k.free.elems, k.free.next[..], k.free.prev[..];
        LinkedNoDup(nx, pv, k.free.first, f);
        k.free.InsertHead(i);
        FilledStep(f, i);
        OffListPrepended(nx, pv, f, i, k.free.next[..], k.free.prev[..]);
      }
    }
  }

  lemma OffListPrepended(next: seq<int>, prev: seq<Back>, f: seq<nat>, i: nat, next': seq<int>, prev': seq<Back>)
    requires |next| == |prev| == |next'| == |prev'| && OffListZero(next, prev, f)
    requires forall y: nat :: y < |next| && y !in [i] + f ==> next'[y] == next[y] && prev'[y] == prev[y]
    ensures OffListZero(next', prev', [i] + f)
  {
    assert forall y: nat :: y in f ==> y in [i] + f;
  }

  lemma FilledStep(f: seq<nat>, i: nat)
    requires Descending(f) && forall p: nat :: p in f ==> p < i
    ensures Descending([i] + f) && forall p: nat :: p in [i] + f <==> p == i || p in f
  {
    assert forall j :: 1 <= j < |f| + 1 ==> ([i] + f)[j] in f;
  }

  /** An empty PML4. */
  lemma EmptySound(x: Load, avail: seq<bool>)
    requires ListFilled(x, avail, |avail|) && |x.m.phys| == |avail| && |x.m.roots| == 1 && 0 <= x.m.roots[0] < |avail|
    requires x.m.width == TABLE_SIZE
    requires (forall p :: 0 <= p < |avail| ==> |x.m.phys[p]| == TABLE_SIZE) && x.m.phys[x.m.roots[0]] == Zeros()
    requires !avail[x.m.roots[0]] && x.m.roots[0] < 0x10_0000
    ensures Sound(x, 0) && (forall i: nat :: Entry(x.m, i) == ZERO)
    ensures Tight(x.m, 0) && MappedPages(x.m, 0) == iset{}
  {
    hide Cnt, Nth, Down, Tight, MappedPages;
    var R := x.m.roots[0];
    EmptyTight(x.m, R);
    forall p: int ensures Cnt(x.m, 5, TOP, 0, p, false) == if p == R then 1 else 0 { EmptyCnt(x.m, R, p); }
    forall i: nat ensures Entry(x.m, i) == ZERO { EmptyEntry(x.m, R, i); }
    forall i | 0 <= i < |x.free| ensures x.free[i] < |x.ref| { assert x.free[i] in x.free; }
  }

  lemma EmptyCnt(m: Mem, R: nat, p: int)
    requires m.roots == [R] && R < |m.phys| && m.phys[R] == Zeros()
    ensures Cnt(m, 5, TOP, 0, p, false) == if p == R then 1 else 0
  {
    BlankCnt(m, 4, R, 0, p, false);
    assert Cnt(m, 5, TOP, 1, p, false) == 0;
  }

  lemma EmptyTight(m: Mem, R: nat)
    requires m.roots == [R] && R < |m.phys| && m.phys[R] == Zeros()
    ensures Tight(m, 0) && MappedPages(m, 0) == iset{}
  {
    hide Tight, MappedPages, TablesFor;
    forall v: Vpage ensures Pte(m, Path(0, v)) == ZERO && Node(m, 5, TOP, Path(0, v), 3) == None {
      assert At(m, R, Idx(Path(0, v), 4)) == ZERO;
      assert Leaf(m, 4, R, Path(0, v)) == ZERO && Node(m, 4, R, Path(0, v), 3) == None;
    }
    TightEmpty(m, 0);
  }

  lemma EmptyEntry(m: Mem, R: nat, i: nat)
    requires m.roots == [R] && R < |m.phys| && m.phys[R] == Zeros()
    ensures Entry(m, i) == ZERO
  {
    hide Nth;
    var q := Path(0, Nth(i));
    assert At(m, R, Idx(q, 4)) == ZERO;
    assert Leaf(m, 4, R, q) == ZERO;
  }

  // ------------------------------------------------------------------------
  // The sections

  /** Frames of the boot stack and of the configuration page, frames below `free_memory`, frames
      of memory. */
  datatype Plan = Plan(stack: nat, config: nat, low: nat, n: nat)

  /** 32 GB */
  const MOST_PAGES: nat := 0x80_0000

  /** The number of the virtual page KERNEL_BASE. */
  const BASE: nat := 0xF_FF80_0000

  const APIC: nat := 0xFEE00
  const IOAPIC: nat := 0xFEC00

  predicate Fitting(b: Plan) {
    b.stack + 8 <= b.n && b.config < b.n && b.low <= b.n <= MOST_PAGES
  }

  function Planned(stack: nat, config: nat, freeMemory: nat, memory: nat): Plan {
    Plan(stack / PAGE_SIZE, config / PAGE_SIZE, Count(freeMemory), memory / PAGE_SIZE)
  }

  datatype Piece = Piece(first: nat, frame: nat, cnt: nat)

  /** The calls of loader_map_section in their order. */
  function PieceOf(b: Plan, s: nat): Piece {
    if s == 0 then Piece(BASE - 8, b.stack, 8)
    else if s == 1 then Piece(BASE - 9, b.config, 1)
    else if s == 2 then Piece(BASE - 10, APIC, if APIC < b.n then 1 else 0)
    else if s == 3 then Piece(BASE - 11, IOAPIC, if IOAPIC < b.n then 1 else 0)
    else if s == 4 then Piece(0, 0, b.low)
    else Piece(BASE, 0, b.n)
  }

  /** The entry for virtual page `i` after the first `s` sections. */
  function Want(b: Plan, s: nat, i: nat): Word {
    if s == 0 then ZERO
    else
      var c := PieceOf(b, s - 1);
      if c.first <= i < c.first + c.cnt then Frame(c.frame + i - c.first) else Want(b, s - 1, i)
  }

  /** After the first `s` sections; `top` is the highest available page, which becomes the table that
      leads to the kernel's half. */
  ghost predicate Stage(x: Load, b: Plan, s: nat, top: nat) {
    && Sound(x, if s < 6 then 0 else 1) && |x.ref| == b.n
    && (forall i: nat :: i < LIMIT ==> Entry(x.m, i) == Want(b, s, i))
    && (forall j: nat :: j != 0 && j != 511 ==> At(x.m, x.m.roots[0], j) == ZERO)
    && (forall t: nat, r: nat ::
          t < s && t < 5 && PieceOf(b, t).frame <= r < PieceOf(b, t).frame + PieceOf(b, t).cnt ==>
          r !in x.free)
    && (s >= 6 ==> forall r: nat :: r < b.n ==> x.ref[r] == 1)
    && (s == 0 ==> !At(x.m, x.m.roots[0], 511).p && (|x.free| > 0 ==> x.free[0] == top))
    && (s > 0 ==> At(x.m, x.m.roots[0], 511).p && At(x.m, x.m.roots[0], 511).ppn == top)
  }

  /** The virtual pages of the first `s` sections. */
  ghost function Covered(b: Plan, s: nat): iset<Vpage> {
    if s == 0 then iset{} else Covered(b, s - 1) + Range(PieceOf(b, s - 1).first, PieceOf(b, s - 1).cnt)
  }

  /** What is left of the list `f` after the first `s` sections; None if it has given out. */
  ghost function ListAfter(f: seq<nat>, b: Plan, s: nat): Option<seq<nat>> {
    if s == 0 then Some(f)
    else
      var c := PieceOf(b, s - 1);
      match ListAfter(f, b, s - 1)
      case None => None
      case Some(g) => SectionList(g, Covered(b, s - 1), c.first, c.frame, c.cnt, s - 1 < 5)
  }

  lemma {:induction false} ListNone(f: seq<nat>, b: Plan, s: nat, more: nat)
    requires s <= more && ListAfter(f, b, s).None?
    ensures ListAfter(f, b, more).None?
  {
    hide SectionList, Covered;
    if s < more { ListNone(f, b, s, more - 1); }
  }

  /** Where no page to keep is on the list, the sections take exactly the tables they need from its
      front, and it gives out exactly when it is shorter than that. */
  lemma {:induction false} ListSpent(f: seq<nat>, b: Plan, s: nat)
    requires s <= 6
    requires forall t: nat, r: nat ::
               t < 5 && PieceOf(b, t).frame <= r < PieceOf(b, t).frame + PieceOf(b, t).cnt ==> r !in f
    ensures ListAfter(f, b, s) == SpendTables(f, TablesFor(Covered(b, s)))
  {
    hide SectionList, Range, TablesFor, PieceOf;
    if s == 0 {
      NoTables();
    } else {
      ListSpent(f, b, s - 1);
      var P, c := Covered(b, s - 1), PieceOf(b, s - 1);
      TablesMonotone(P, Covered(b, s));
      var g := ListAfter(f, b, s - 1);
      if g.Some? {
        assert forall r: nat :: r in g.value ==> r in f;
        SectionSpent(g.value, P, c.first, c.frame, c.cnt, s - 1 < 5);
      }
    }
  }

  /** The tables are those that the first `s` sections need, and the list is what these left of `f`. */
  ghost predicate Supplied(x: Load, b: Plan, s: nat, f: seq<nat>) {
    Tight(x.m, 0) && MappedPages(x.m, 0) == Covered(b, s) && ListAfter(f, b, s) == Some(x.free)
  }

  lemma SuppliedStep(x: Load, y: Load, b: Plan, s: nat, f: seq<nat>)
    requires Supplied(x, b, s, f)
    requires Stocked(x, y, PieceOf(b, s).first, PieceOf(b, s).frame, PieceOf(b, s).cnt, s < 5)
    ensures Supplied(y, b, s + 1, f)
  {
    hide Tight, MappedPages, SectionList, Range, PieceOf;
  }

  lemma SuppliedStop(x: Load, b: Plan, s: nat, f: seq<nat>)
    requires Supplied(x, b, s, f) && s <= 5
    requires var c := PieceOf(b, s); SectionList(x.free, MappedPages(x.m, 0), c.first, c.frame, c.cnt, s < 5).None?
    ensures ListAfter(f, b, 6).None?
  {
    hide Tight, MappedPages, SectionList, Range, PieceOf;
    ListNone(f, b, s + 1, 6);
  }

  lemma SuppliedSkip(x: Load, b: Plan, s: nat, f: seq<nat>)
    requires Supplied(x, b, s, f) && PieceOf(b, s).cnt == 0
    ensures Supplied(x, b, s + 1, f)
  {
    hide Tight, MappedPages, PieceOf;
    assert Range(PieceOf(b, s).first, 0) == iset{};
  }

  lemma PiecesApart(b: Plan, s: nat, t: nat, i: nat)
    requires Fitting(b) && s < t <= 5 && PieceOf(b, t).first <= i < PieceOf(b, t).first + PieceOf(b, t).cnt
    ensures !(PieceOf(b, s).first <= i < PieceOf(b, s).first + PieceOf(b, s).cnt)
    ensures i < LIMIT
  {
  }

  lemma {:induction false} Unwanted(b: Plan, s: nat, t: nat, i: nat)
    requires Fitting(b) && s <= t <= 5 && PieceOf(b, t).first <= i < PieceOf(b, t).first + PieceOf(b, t).cnt
    ensures Want(b, s, i) == ZERO
  {
    if s > 0 {
      PiecesApart(b, s - 1, t, i);
      Unwanted(b, s - 1, t, i);
    }
  }

  lemma PieceTouches(b: Plan, s: nat, j: nat)
    requires Fitting(b) && s <= 5 && Touches(PieceOf(b, s).first, PieceOf(b, s).cnt, j)
    ensures j == 0 || j == 511
  {
    var c := PieceOf(b, s);
    if s == 4 {
      assert j * SPAN < SPAN;
    } else {
      assert 511 * SPAN <= c.first && c.first + c.cnt <= 512 * SPAN;
      assert j < 512 && j + 1 > 511;
    }
  }

  lemma StageStep(x: Load, y: Load, b: Plan, s: nat, top: nat)
    requires Fitting(b) && s <= 5 && Stage(x, b, s, top)
    requires SectionMapped(x, y, PieceOf(b, s).first, PieceOf(b, s).frame, PieceOf(b, s).cnt, s < 5)
    ensures Stage(y, b, s + 1, top) && (s == 0 ==> |x.free| > 0)
  {
    hide Sound, Entry, Touches, PieceOf, Nth, At;
    var c := PieceOf(b, s);
    forall j: nat | j != 0 && j != 511 ensures At(y.m, y.m.roots[0], j) == ZERO {
      if Touches(c.first, c.cnt, j) { PieceTouches(b, s, j); }
    }
    forall i: nat | i < LIMIT ensures Entry(y.m, i) == Want(b, s + 1, i) {
      assert Entry(x.m, i) == Want(b, s, i);
    }
    if s == 5 { LastPiece(b); }
    if s == 0 { FirstPiece(b); }
  }

  lemma FirstPiece(b: Plan)
    ensures PieceOf(b, 0) == Piece(BASE - 8, b.stack, 8) && Nth(BASE - 8).i4 == 511
  {
  }

  lemma LastPiece(b: Plan)
    ensures PieceOf(b, 5) == Piece(BASE, 0, b.n)
  {
  }

  /** Before a section its entries are absent, and its frames are in the page array. */
  lemma StageReady(x: Load, b: Plan, s: nat, top: nat)
    requires Fitting(b) && s <= 5 && Stage(x, b, s, top)
    ensures Sound(x, Most(s < 5)) && |x.ref| == b.n
    ensures PieceOf(b, s).first + PieceOf(b, s).cnt <= LIMIT
    ensures (PieceOf(b, s).cnt > 0 ==> PieceOf(b, s).frame + PieceOf(b, s).cnt <= b.n)
    ensures forall i: nat :: PieceOf(b, s).first <= i < PieceOf(b, s).first + PieceOf(b, s).cnt ==> !Entry(x.m, i).p
  {
    var c := PieceOf(b, s);
    assert Sound(x, Most(s < 5));
    hide Sound, Entry;
    forall i: nat | c.first <= i < c.first + c.cnt ensures !Entry(x.m, i).p {
      Unwanted(b, s, s, i);
      assert i < LIMIT;
    }
  }

  /** A section that is left out. */
  lemma StageSkip(x: Load, b: Plan, s: nat, top: nat)
    requires 0 < s < 5 && Stage(x, b, s, top) && PieceOf(b, s).cnt == 0
    ensures Stage(x, b, s + 1, top)
  {
    hide Sound, Entry;
  }

  lemma StageStart(x: Load, b: Plan, avail: seq<bool>)
    requires ListFilled(x, avail, |avail|) && |x.m.phys| == |avail| == b.n && |x.m.roots| == 1
    requires 0 <= x.m.roots[0] < |avail| && x.m.width == TABLE_SIZE
    requires forall p :: 0 <= p < |avail| ==> |x.m.phys[p]| == TABLE_SIZE
    requires x.m.phys[x.m.roots[0]] == Zeros() && !avail[x.m.roots[0]] && x.m.roots[0] < 0x10_0000
    ensures Stage(x, b, 0, if |x.free| > 0 then x.free[0] else 0) && Supplied(x, b, 0, Down(avail, |avail|))
  {
    hide Sound, Entry, Down, Tight, MappedPages;
    EmptySound(x, avail);
  }

  /** The section number `s`, whose arguments the caller gives in bytes. */
  method Next(k: Loader, va: nat, pa: nat, len: nat, hard: bool, ghost b: Plan, ghost s: nat, ghost top: nat,
          ghost soft: bool, ghost f: seq<nat>)
    returns (r: Status)
    requires k.Valid() && Fitting(b) && s <= 5 && hard == (s < 5) && Stage(k.L(soft), b, s, top)
    requires AllLow(soft, k.free.elems)
    requires PieceOf(b, s) == Piece(First(va), pa / PAGE_SIZE, Count(len)) && va % PAGE_SIZE == 0
    requires (PieceOf(b, s).cnt > 0 || PieceOf(b, s).frame <= b.n) && Supplied(k.L(soft), b, s, f)
    modifies k`phys, k`ref, k.free.Repr()
    ensures k.Valid()
    ensures r == Done ==> Stage(k.L(soft), b, s + 1, top) && AllLow(soft, k.free.elems)
    ensures r == Done ==> Supplied(k.L(soft), b, s + 1, f)
    ensures r == NoPages ==> ListAfter(f, b, 6).None?
    ensures r == Done ==> (OutOfReach(k.free.elems) ==> OutOfReach(old(k.free.elems)))
    ensures r == Done ==> forall p: nat :: p in k.free.elems ==> p in old(k.free.elems)
    ensures r == NoPages ==> k.free.elems == []
    ensures r == Done && s == 0 ==> |old(k.free.elems)| > 0
    ensures r == Astray ==> OutOfReach(old(k.free.elems))
    ensures s == 0 && OutOfReach(old(k.free.elems)) ==>
              r == Astray && StrayedFrom(old(k.phys), old(k.free.elems), k.phys, k.free.elems, k.pml4, 511)
  {
    hide Stage, SectionMapped, Section, Entry, Sound, PieceOf, First, Count, Onward, Linked, OffListZero;
    hide Marked, Looked, Nth, At;
    hide AllLow, OutOfReach, StrayedFrom, Supplied, Stocked, SectionList, Tight, MappedPages, ListAfter;
    ghost var x := k.L(soft);
    StageReady(x, b, s, top);
    SuppliedTight(x, b, s, f);
    if s == 0 { FirstPiece(b); StageEmpty(x, b, top); }
    ghost var done;
    r, done := MapSection(k, va, pa, len, hard, soft);
    if r == Done {
      StageStep(x, k.L(soft), b, s, top);
      SectionOnward(x, k.L(soft), First(va), pa / PAGE_SIZE, done, hard, soft);
      SuppliedStep(x, k.L(soft), b, s, f);
    } else if r == NoPages {
      SuppliedStop(x, b, s, f);
    }
  }

  lemma SuppliedTight(x: Load, b: Plan, s: nat, f: seq<nat>)
    requires Supplied(x, b, s, f)
    ensures Tight(x.m, 0)
  {
  }

  lemma StageEmpty(x: Load, b: Plan, top: nat)
    requires Stage(x, b, 0, top)
    ensures |x.m.roots| > 0 && !At(x.m, x.m.roots[0], 511).p
  {
  }

  lemma SectionOnward(x: Load, y: Load, n: nat, p: nat, cnt: nat, hard: bool, soft: bool)
    requires Sound(x, Most(hard)) && SectionMapped(x, y, n, p, cnt, hard) && AllLow(soft, x.free)
    ensures forall r: nat :: r in y.free ==> r in x.free
    ensures AllLow(soft, y.free) && (OutOfReach(y.free) ==> OutOfReach(x.free))
  {
    hide Cnt, Once, Section, RootOutside;
    forall i | 0 <= i < |y.free| ensures y.free[i] in x.free { assert y.free[i] in y.free; }
    if |y.free| > 0 { HighestFirst(x, Most(hard), y.free[0]); }
  }

  const APIC_BASE: nat := KERNEL_INFO - PAGE_SIZE
  const APIC_BASE_PA: nat := 0xFEE0_0000
  const IOAPIC_BASE_PA: nat := 0xFEC0_0000

  lemma Addresses()
    ensures First(KERNEL_BASE) == BASE && First(KERNEL_BASE - 8 * PAGE_SIZE) == BASE - 8
    ensures First(KERNEL_INFO) == BASE - 9
    ensures First(APIC_BASE) == BASE - 10 && First(IOAPIC_BASE) == BASE - 11 && First(0) == 0
    ensures APIC_BASE_PA / PAGE_SIZE == APIC && IOAPIC_BASE_PA / PAGE_SIZE == IOAPIC
    ensures APIC_BASE_PA % PAGE_SIZE == 0 && IOAPIC_BASE_PA % PAGE_SIZE == 0
    ensures Count(8 * PAGE_SIZE) == 8 && Count(PAGE_SIZE) == 1
  {
  }

  lemma CountDown(n: nat)
    ensures Count(n / PAGE_SIZE * PAGE_SIZE) == n / PAGE_SIZE
  {
  }

  // ------------------------------------------------------------------------
  // What the tables translate

  /** The entry for virtual page `i` after the last section, said outright. */
  function Said(b: Plan, i: nat): Word {
    if BASE <= i < BASE + b.n then Frame(i - BASE)
    else if i < b.low then Frame(i)
    else if i == BASE - 11 && IOAPIC < b.n then Frame(IOAPIC)
    else if i == BASE - 10 && APIC < b.n then Frame(APIC)
    else if i == BASE - 9 then Frame(b.config)
    else if BASE - 8 <= i < BASE then Frame(b.stack + i - (BASE - 8))
    else ZERO
  }

  lemma WantSaid(b: Plan, i: nat)
    requires Fitting(b)
    ensures Want(b, 6, i) == Said(b, i)
  {
    assert Want(b, 0, i) == ZERO;
    var w1 := if BASE - 8 <= i < BASE then Frame(b.stack + i - (BASE - 8)) else ZERO;
    assert Want(b, 1, i) == w1;
    var w2 := if i == BASE - 9 then Frame(b.config) else w1;
    assert Want(b, 2, i) == w2;
    var w3 := if i == BASE - 10 && APIC < b.n then Frame(APIC) else w2;
    assert Want(b, 3, i) == w3;
    var w4 := if i == BASE - 11 && IOAPIC < b.n then Frame(IOAPIC) else w3;
    assert Want(b, 4, i) == w4;
    assert Want(b, 5, i) == if i < b.low then Frame(i) else w4;
  }

  lemma Translated(x: Load, b: Plan, top: nat, i: nat)
    requires Fitting(b) && Stage(x, b, 6, top) && i < LIMIT
    ensures Entry(x.m, i) == Said(b, i)
  {
    hide Sound, Entry, Said;
    WantSaid(b, i);
  }

  /** The pages of the sections to keep are off the list. */
  lemma KeptPages(x: Load, b: Plan, top: nat, r: nat)
    requires Stage(x, b, 6, top)
    requires r < b.low || b.stack <= r < b.stack + 8 || r == b.config || (r < b.n && (r == APIC || r == IOAPIC))
    ensures r !in x.free
  {
    hide Sound, Entry, Want, At;
    var t :=
      if r < b.low then 4
      else if b.stack <= r < b.stack + 8 then 0
      else if r == b.config then 1
      else if r == APIC then 2
      else 3;
    assert PieceOf(b, t).frame <= r < PieceOf(b, t).frame + PieceOf(b, t).cnt;
  }

  /** The loader's sections translate as written, and the pages to keep are kept. */
  lemma Translations(x: Load, b: Plan, top: nat)
    requires Fitting(b) && Stage(x, b, 6, top)
    ensures forall i: nat :: i < b.n ==> Entry(x.m, BASE + i) == Frame(i) && x.ref[i] == 1
    ensures forall i: nat :: i < b.low ==> Entry(x.m, i) == Frame(i) && i !in x.free
    ensures forall i: nat :: BASE - 8 <= i < BASE ==> Entry(x.m, i) == Frame(b.stack + i - (BASE - 8))
    ensures forall i: nat :: b.stack <= i < b.stack + 8 ==> i !in x.free
    ensures Entry(x.m, BASE - 9) == Frame(b.config) && b.config !in x.free
    ensures APIC < b.n ==> Entry(x.m, BASE - 10) == Frame(APIC) && APIC !in x.free
    ensures IOAPIC < b.n ==> Entry(x.m, BASE - 11) == Frame(IOAPIC) && IOAPIC !in x.free
    ensures forall i: nat :: b.low <= i < BASE - 11 ==> Entry(x.m, i) == ZERO
  {
    hide Stage, Entry, Said;
    AllUsed(x, b, top);
    forall i: nat | i < b.n ensures Entry(x.m, BASE + i) == Frame(i) {
      Translated(x, b, top, BASE + i);
      SaidAt(b, BASE + i);
    }
    forall i: nat | i < b.low ensures Entry(x.m, i) == Frame(i) && i !in x.free {
      Translated(x, b, top, i);
      SaidAt(b, i);
      KeptPages(x, b, top, i);
    }
    forall i: nat | b.stack <= i < b.stack + 8 ensures i !in x.free { KeptPages(x, b, top, i); }
    forall i: nat | BASE - 8 <= i < BASE ensures Entry(x.m, i) == Frame(b.stack + i - (BASE - 8)) {
      Translated(x, b, top, i);
      SaidAt(b, i);
    }
    forall i: nat | b.low <= i < BASE - 11 ensures Entry(x.m, i) == ZERO {
      Translated(x, b, top, i);
      SaidAt(b, i);
    }
    FixedPages(x, b, top);
  }

  /** Every byte below `free_memory` translates to itself, and its page is kept. */
  lemma LowBytes(x: Load, b: Plan, top: nat, stack: nat, config: nat, freeMemory: nat, memory: nat, a: nat)
    requires b == Planned(stack, config, freeMemory, memory) && Fitting(b) && Stage(x, b, 6, top) && a < freeMemory
    ensures Names(Pte(x.m, PathOf(0, a)), a / PAGE_SIZE) && a / PAGE_SIZE !in x.free
  {
    hide Stage, Pte, Nth, Count;
    CountIs(freeMemory, a / PAGE_SIZE);
    Translations(x, b, top);
    assert Entry(x.m, a / PAGE_SIZE) == Frame(a / PAGE_SIZE);
  }

  lemma SaidAt(b: Plan, i: nat)
    requires Fitting(b)
    ensures BASE <= i < BASE + b.n ==> Said(b, i) == Frame(i - BASE)
    ensures i < b.low ==> Said(b, i) == Frame(i)
    ensures BASE - 8 <= i < BASE ==> Said(b, i) == Frame(b.stack + i - (BASE - 8))
    ensures b.low <= i < BASE - 11 ==> Said(b, i) == ZERO
  {
  }

  lemma FixedPages(x: Load, b: Plan, top: nat)
    requires Fitting(b) && Stage(x, b, 6, top)
    ensures Entry(x.m, BASE - 9) == Frame(b.config) && b.config !in x.free
    ensures APIC < b.n ==> Entry(x.m, BASE - 10) == Frame(APIC) && APIC !in x.free
    ensures IOAPIC < b.n ==> Entry(x.m, BASE - 11) == Frame(IOAPIC) && IOAPIC !in x.free
  {
    hide Stage, Entry;
    Translated(x, b, top, BASE - 9);
    Translated(x, b, top, BASE - 10);
    Translated(x, b, top, BASE - 11);
    KeptPages(x, b, top, b.config);
    if APIC < b.n { KeptPages(x, b, top, APIC); }
    if IOAPIC < b.n { KeptPages(x, b, top, IOAPIC); }
  }

  lemma AllUsed(x: Load, b: Plan, top: nat)
    requires Stage(x, b, 6, top)
    ensures |x.ref| == b.n && forall r: nat :: r < b.n ==> x.ref[r] == 1
  {
  }

  // ------------------------------------------------------------------------
  // Exactly when the processor sees them

  /** KERNEL_BASE + pa translates to pa for every page of memory. */
  ghost predicate DirectMap(m: Mem, n: nat) {
    forall i: nat :: i < n ==> Entry(m, BASE + i) == Frame(i)
  }

  lemma DirectMapHolds(x: Load, b: Plan, top: nat)
    requires Fitting(b) && Stage(x, b, 6, top)
    ensures DirectMap(x.m, b.n)
  {
    hide Stage, Entry;
    Translations(x, b, top);
  }

  /** The page at 2 GB as a table: its entry names a frame no memory has, although the loader itself
      finds its way. */
  lemma TableAtTwoGib()
    ensures Page2Pa32(0x8_0000) == 0xFFFF_FFFF_8000_0000 && TableEntry(0x8_0000).ppn == 0xF_FFFF_FFF8_0000
    ensures Look(true, TableEntry(0x8_0000)).ppn == 0x8_0000 != Look(false, TableEntry(0x8_0000)).ppn
  {
  }

  /** If the table that leads to the kernel's half lies between 2 GB and 4 GB, the processor finds
      nothing at all there. */
  lemma Nowhere(phys: seq<seq<Word>>, pml4: nat, top: nat, i: nat)
    requires pml4 < |phys| <= MOST_PAGES && |phys[pml4]| == TABLE_SIZE && Marked(phys[pml4])
    requires Look(true, phys[pml4][511]).p && Look(true, phys[pml4][511]).ppn == top && 0x8_0000 <= top < 0x10_0000
    requires Nth(i).i4 == 511
    ensures Entry(Mem(phys, [pml4], TABLE_SIZE), i) == ZERO
  {
    hide Nth, Entry;
    assert phys[pml4][511].ppn >= SIGN;
    NowhereBeyond(phys, pml4, i);
  }

  /** A table beyond all memory leads nowhere. */
  lemma NowhereBeyond(phys: seq<seq<Word>>, pml4: nat, i: nat)
    requires pml4 < |phys| && |phys[pml4]| == TABLE_SIZE && phys[pml4][511].ppn >= |phys| && Nth(i).i4 == 511
    ensures Entry(Mem(phys, [pml4], TABLE_SIZE), i) == ZERO
  {
    hide Nth;
    var m, q, w := Mem(phys, [pml4], TABLE_SIZE), Path(0, Nth(i)), phys[pml4][511];
    if w.p {
      assert Leaf(m, 4, pml4, q) == Leaf(m, 3, w.ppn, q);
      assert At(m, w.ppn, Idx(q, 3)) == ZERO;
      assert Leaf(m, 3, w.ppn, q) == ZERO;
    }
  }

  /** For a loader that ended well: the processor sees the direct mapping exactly if the highest
      available page lies below 2 GB, and sees nothing of the kernel's half otherwise. */
  lemma DirectMapExact(phys: seq<seq<Word>>, pml4: nat, x: Load, b: Plan, top: nat)
    requires Fitting(b) && b.n > 0 && Stage(x, b, 6, top) && pml4 < |phys| == b.n && Marked(phys[pml4])
    requires top < 0x10_0000
    requires x.m == Mem(Looked(top >= 0x8_0000, phys), [pml4], TABLE_SIZE)
    ensures DirectMap(Mem(phys, [pml4], TABLE_SIZE), b.n) <==> top < 0x8_0000
    ensures top >= 0x8_0000 ==> forall i: nat :: BASE <= i < LIMIT ==> Entry(Mem(phys, [pml4], TABLE_SIZE), i) == ZERO
  {
    var m := Mem(phys, [pml4], TABLE_SIZE);
    StageTop(x, b, top);
    if top < 0x8_0000 {
      assert x.m == m;
      DirectMapHolds(x, b, top);
    } else {
      hide Stage, Entry, Nth, Marked, Looked, Look;
      forall i: nat | BASE <= i < LIMIT ensures Entry(m, i) == ZERO {
        KernelSlot(i);
        Nowhere(phys, pml4, top, i);
      }
      assert Frame(0) != ZERO && Entry(m, BASE + 0) == ZERO;
    }
  }

  lemma StageTop(x: Load, b: Plan, top: nat)
    requires Stage(x, b, 6, top)
    ensures |x.m.roots| == 1 && At(x.m, x.m.roots[0], 511).p && At(x.m, x.m.roots[0], 511).ppn == top
    ensures 0 <= x.m.roots[0] < |x.m.phys| && |x.m.phys[x.m.roots[0]]| == TABLE_SIZE
  {
    RootRange(x, 1);
  }

  lemma KernelSlot(i: nat)
    requires BASE <= i < LIMIT
    ensures Nth(i).i4 == 511
  {
  }

  // ------------------------------------------------------------------------
  // loader_init_memory

  /** All available pages lie below `bound`. */
  ghost predicate AvailBelow(avail: seq<bool>, bound: nat) {
    forall p: nat :: p < |avail| && avail[p] ==> p < bound
  }

  lemma ListBelow(x: Load, avail: seq<bool>)
    requires ListFilled(x, avail, |avail|)
    ensures OutOfReach(x.free) <==> !AvailBelow(avail, 0x10_0000)
    ensures OutOfReach(x.free) ==> |x.free| > 0
    ensures AllLow(!AvailBelow(avail, 0x8_0000), x.free)
    ensures |x.free| > 0 ==> x.free[0] < |avail| && avail[x.free[0]]
    ensures |x.free| > 0 ==> forall p: nat :: p < |avail| && avail[p] ==> p <= x.free[0]
    ensures |x.free| == 0 ==> forall p: nat :: p < |avail| ==> !avail[p]
  {
    hide Down;
    forall p: nat | p < |avail| && avail[p] ensures |x.free| > 0 && p <= x.free[0] {
      var i :| 0 <= i < |x.free| && x.free[i] == p;
    }
    forall i | 0 <= i < |x.free| ensures x.free[i] < |avail| && avail[x.free[i]] { assert x.free[i] in x.free; }
  }

  /** loader_init_memory. It goes astray exactly when a page from 4 GB up is available, and
      otherwise gives out exactly when the list does. If it ends well, the tables are as wanted: to
      the processor if all available pages lie below 2 GB, and to the loader alone if not. */
  method InitMemory(phys: seq<seq<Word>>, pml4: nat, avail: seq<bool>, stack: nat, config: nat, freeMemory: nat,
          memory: nat)
    returns (r: Status, k: Loader, ghost b: Plan, ghost top: nat)
    requires |phys| == |avail| == memory / PAGE_SIZE && (forall p :: 0 <= p < |phys| ==> |phys[p]| == TABLE_SIZE)
    requires pml4 < |phys| && pml4 < 0x10_0000 && !avail[pml4]
    requires Fitting(Planned(stack, config, freeMemory, memory))
    ensures b == Planned(stack, config, freeMemory, memory)
    ensures k.Valid() && k.pml4 == pml4 && fresh(k) && fresh(k.free.Repr())
    ensures r == Astray <==> !AvailBelow(avail, 0x10_0000)
    ensures r == NoPages <==> AvailBelow(avail, 0x10_0000) && ListAfter(Down(avail, |avail|), b, 6).None?
    ensures r == Done ==> Stage(k.L(!AvailBelow(avail, 0x8_0000)), b, 6, top)
    ensures r == Done ==> ListAfter(Down(avail, |avail|), b, 6) == Some(k.free.elems)
    ensures r == Done ==> (forall p: nat :: p in k.free.elems ==> p < |avail| && avail[p])
    ensures r != NoPages ==> top < |avail| && avail[top] && forall p: nat :: p < |avail| && avail[p] ==> p <= top
    ensures r == Done ==> (DirectMap(k.L(false).m, b.n) <==> AvailBelow(avail, 0x8_0000))
    ensures r == Done && !AvailBelow(avail, 0x8_0000) ==>
              forall i: nat :: BASE <= i < LIMIT ==> Entry(k.L(false).m, i) == ZERO
    ensures r == NoPages ==> k.free.elems == []
    ensures r == Astray ==> top % 0x10_0000 < |phys| && k.phys == Strayed(phys[pml4 := Zeros()], pml4, 511, top)
    ensures r == Astray && top % 0x10_0000 >= 0x8_0000 ==>
              forall i: nat :: BASE <= i < LIMIT ==> Entry(k.L(false).m, i) == ZERO
    ensures r == Astray && avail[top % 0x10_0000] ==> top % 0x10_0000 in k.free.elems
  {
    hide Stage, Linked, OffListZero, Marked, Looked, Onward, First, Count, Fitting, AllLow, OutOfReach, StrayedFrom;
    hide DirectMap, Entry, AvailBelow, Supplied, ListAfter, Down;
    b := Planned(stack, config, freeMemory, memory);
    Addresses();
    k := new Loader(phys, pml4);
    FillFree(k, avail);
    ghost var soft := !AvailBelow(avail, 0x8_0000);
    ghost var x, f := k.L(soft), Down(avail, |avail|);
    LookedZeros(soft, phys, pml4);
    top := if |x.free| > 0 then x.free[0] else 0;
    StageStart(x, b, avail);
    ListBelow(x, avail);
    r := Next(k, KERNEL_BASE - 8 * PAGE_SIZE, stack, 8 * PAGE_SIZE, true, b, 0, top, soft, f);
    if r != Done {
      if r == Astray { FirstAstray(k.phys, k.free.elems, phys, pml4, avail, top, b); }
      return;
    }
    r := Rest(k, config, freeMemory, memory, b, top, soft, f);
    if r == Done {
      SuppliedList(k.L(soft), b, f);
      BelowTop(avail, top);
      assert k.L(false).m == Mem(k.phys, [pml4], TABLE_SIZE);
      DirectMapExact(k.phys, pml4, k.L(soft), b, top);
    }
  }

  /** The first table has gone to the wrong page, which may be a free one. */
  lemma FirstAstray(phys': seq<seq<Word>>, f': seq<nat>, phys: seq<seq<Word>>, pml4: nat, avail: seq<bool>, top: nat,
          b: Plan)
    requires Fitting(b) && |phys| == |avail| == b.n && pml4 < |phys|
    requires forall p: nat :: p in Down(avail, |avail|) <==> p < |avail| && avail[p]
    requires OutOfReach(Down(avail, |avail|)) && Down(avail, |avail|)[0] == top
    requires StrayedFrom(phys[pml4 := Zeros()], Down(avail, |avail|), phys', f', pml4, 511)
    ensures top % 0x10_0000 < |phys| && phys' == Strayed(phys[pml4 := Zeros()], pml4, 511, top)
    ensures top % 0x10_0000 >= 0x8_0000 ==>
              forall i: nat :: BASE <= i < LIMIT ==> Entry(Mem(phys', [pml4], TABLE_SIZE), i) == ZERO
    ensures avail[top % 0x10_0000] ==> top % 0x10_0000 in f'
  {
    hide Down, Entry, Nth, Frame32;
    var D, f := top % 0x10_0000, Down(avail, |avail|);
    assert top in f;
    assert D < 0x10_0000 <= top;
    Frame32Is(top);
    if D >= 0x8_0000 {
      forall i: nat | BASE <= i < LIMIT ensures Entry(Mem(phys', [pml4], TABLE_SIZE), i) == ZERO {
        KernelSlot(i);
        NowhereBeyond(phys', pml4, i);
      }
    }
    if avail[D] {
      var j :| 0 <= j < |f| && f[j] == D;
      assert f'[j - 1] == D;
    }
  }

  lemma SuppliedList(x: Load, b: Plan, f: seq<nat>)
    requires Supplied(x, b, 6, f)
    ensures ListAfter(f, b, 6) == Some(x.free)
  {
  }

  lemma BelowTop(avail: seq<bool>, top: nat)
    requires top < |avail| && avail[top] && forall p: nat :: p < |avail| && avail[p] ==> p <= top
    ensures forall bound: nat :: AvailBelow(avail, bound) <==> top < bound
  {
  }

  /** The sections after the first. */
  method Rest(k: Loader, config: nat, freeMemory: nat, memory: nat, ghost b: Plan, ghost top: nat, ghost soft: bool,
          ghost f: seq<nat>)
    returns (r: Status)
    requires k.Valid() && Fitting(b) && Stage(k.L(soft), b, 1, top) && AllLow(soft, k.free.elems)
    requires !OutOfReach(k.free.elems) && Supplied(k.L(soft), b, 1, f)
    requires b.config == config / PAGE_SIZE && b.low == Count(freeMemory) && b.n == memory / PAGE_SIZE
    modifies k`phys, k`ref, k.free.Repr()
    ensures k.Valid() && r != Astray && (r == NoPages ==> k.free.elems == [])
    ensures r == NoPages ==> ListAfter(f, b, 6).None?
    ensures r == Done ==> Stage(k.L(soft), b, 6, top) && Supplied(k.L(soft), b, 6, f)
    ensures r == Done ==> forall p: nat :: p in k.free.elems ==> p in old(k.free.elems)
  {
    hide Stage, Linked, OffListZero, Marked, Looked, First, Count, Fitting, AllLow, OutOfReach, Supplied, ListAfter;
    Addresses();
    r := Next(k, KERNEL_INFO, config, PAGE_SIZE, true, b, 1, top, soft, f);
    if r != Done { return; }
    if APIC < memory / PAGE_SIZE {
      r := Next(k, APIC_BASE, APIC_BASE_PA, PAGE_SIZE, true, b, 2, top, soft, f);
      if r != Done { return; }
    } else {
      StageSkip(k.L(soft), b, 2, top);
      SuppliedSkip(k.L(soft), b, 2, f);
    }
    if IOAPIC < memory / PAGE_SIZE {
      r := Next(k, IOAPIC_BASE, IOAPIC_BASE_PA, PAGE_SIZE, true, b, 3, top, soft, f);
      if r != Done { return; }
    } else {
      StageSkip(k.L(soft), b, 3, top);
      SuppliedSkip(k.L(soft), b, 3, f);
    }
    r := Next(k, 0, 0, freeMemory, true, b, 4, top, soft, f);
    if r != Done { return; }
    CountDown(memory);
    r := Next(k, KERNEL_BASE, 0, memory / PAGE_SIZE * PAGE_SIZE, false, b, 5, top, soft, f);
  }
}
