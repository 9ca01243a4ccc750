/** Physical pages, their reference counts and the free list, seen as one value, with the
    invariant that ties the counts to the page tables. */
module Memory {
  import opened Mmu
  import opened PageTree
  import opened Queue


  /** What boot fixed for good: the pages that are never freed, among them the kernel's tables
      on the way to KERNEL_TEMP. */
  datatype Image = Image(boot: set<nat>, kroot: nat, kpt: nat)

  datatype Sys = Sys(m: Mem, ref: seq<nat>, free: seq<nat>, c: Image)

  function TempPte(m: Mem, c: Image): Word { At(m, c.kpt, TEMP.i1) }

  /** The virtual page at the address `va` of the task in slot `t`. */
  function PathOf(t: nat, va: nat): Path { Path(t, PageOfAddr(va)) }

  /** All counted references to page `p`. */
  function Refs(s: Sys, p: int): nat {
    Tables(s.m, p) + Maps(s.m, p) + Hit(1, TempPte(s.m, s.c), p, true)
  }

  lemma RefsNone(s: Sys, n: int)
    requires Refs(s, n) == 0
    ensures Tables(s.m, n) == 0 && Maps(s.m, n) == 0
  {
  }

  predicate InUse(s: Sys, p: int) {
    0 <= p < |s.ref| && p !in s.free && p !in s.c.boot
  }

  /** Allocated, and named by nothing. */
  predicate Limbo(s: Sys, p: int) {
    InUse(s, p) && s.ref[p] == 0
  }

  // ------------------------------------------------------------------------
  // The invariant

  ghost predicate Shape(s: Sys) {
    && |s.ref| == |s.m.phys| && s.m.width == USER_SLOTS
    && (forall p :: 0 <= p < |s.m.phys| ==> |s.m.phys[p]| == TABLE_SIZE)
    && (forall p :: p in s.c.boot ==> p < |s.ref|)
    && NoDup(s.free) && (forall i :: 0 <= i < |s.free| ==> s.free[i] < |s.ref| && s.free[i] !in s.c.boot)
    && 0 in s.c.boot
  }

  /** The tables form a tree and absent page table entries are zero words. */
  ghost predicate Forest(m: Mem) {
    && Once(m, 5, TOP, 0)
    && forall q: Path :: InTree(m, q) ==> Pte(m, q).p || Pte(m, q) == ZERO
  }

  /** Reference counts are exact, named pages are allocated, and a table is named only once. */
  ghost predicate Exact(s: Sys) {
    && (forall p: int :: Refs(s, p) > 0 ==> InUse(s, p))
    && (forall p: int :: InUse(s, p) ==> s.ref[p] == Refs(s, p))
    && (forall p: int :: Tables(s.m, p) > 0 ==> Refs(s, p) == 1)
  }

  predicate Names(e: Word, p: nat) { e.p && e.ppn == p }

  predicate KernelPath(q: Path) { q.v.i4 >= USER_SLOTS }

  /** The frame that the direct mapping, from KERNEL_BASE up, gives to a virtual page. */
  function Physical(v: Vpage): nat {
    if v.i3 < 480 then 0 else ((v.i3 - 480) * 512 + v.i2) * 512 + v.i1
  }

  /** `v` lies in the direct mapping of a memory of `n` pages. */
  predicate Direct(v: Vpage, n: nat) { v.i4 == 511 && v.i3 >= 480 && Physical(v) < n }

  /** A kernel entry has no flags but P and W, so it is closed to user code and the kernel may write
      through it; in the direct mapping it names the frame it should, and elsewhere, if anything, a page that
      is never freed. */
  predicate KernelEntry(v: Vpage, e: Word, n: nat, c: Image) {
    !e.cow && !e.u && e.rest == 0 && Opens(e) && if Direct(v, n) then Names(e, Physical(v)) else e.p ==> e.ppn in c.boot
  }

  /** The kernel's own tables are boot pages, and the page table of KERNEL_TEMP is met only on the
      way to KERNEL_TEMP and its neighbours. */
  ghost predicate KernelTables(m: Mem, c: Image) {
    && (forall q: Path, l: nat :: KernelPath(q) && 1 <= l <= 3 && Node(m, 4, c.kroot, q, l).Some? ==>
          KernelNode(q, l, Node(m, 4, c.kroot, q, l).value, c))
    && (forall q: Path :: KernelPath(q) && q.v != TEMP ==> KernelEntry(q.v, Leaf(m, 4, c.kroot, q), |m.phys|, c))
    && (forall t: nat :: Node(m, 4, c.kroot, Path(t, TEMP), 1) == Some(c.kpt))
    && (forall q: Path, l: nat :: KernelPath(q) && 2 <= l <= 4 && Node(m, 4, c.kroot, q, l).Some? ==>
          Opens(At(m, Node(m, 4, c.kroot, q, l).value, Idx(q, l))))
  }

  /** An entry that leads on lets the kernel write. */
  predicate Opens(e: Word) { e.p ==> e.w }

  predicate KernelNode(q: Path, l: nat, T: int, c: Image) {
    && T >= 0 && T in c.boot
    && (T == c.kpt ==> l == 1 && q.v.(i1 := 0) == TEMP.(i1 := 0))
  }

  /** Every task shares the kernel's half. */
  ghost predicate KernelHalf(m: Mem, c: Image) {
    && c.kroot in c.boot && c.kpt in c.boot && c.kroot != c.kpt
    && At(m, c.kroot, USER_SLOTS - 1) == ZERO
    && KernelTables(m, c)
    && (forall t: nat, x: nat :: t < |m.roots| && m.roots[t] >= 0 && USER_SLOTS <= x ==>
          At(m, m.roots[t], x) == At(m, c.kroot, x))
  }

  ghost predicate Inv(s: Sys) {
    Shape(s) && Forest(s.m) && Exact(s) && KernelHalf(s.m, s.c)
  }

  // ------------------------------------------------------------------------
  // Frames

  /** Pages that are no tables, and the boot pages, keep their contents. */
  ghost predicate SamePages(s: Sys, s': Sys) {
    && |s'.m.phys| == |s.m.phys|
    && forall p: nat :: p < |s.m.phys| && ((InUse(s, p) && Tables(s.m, p) == 0) || p in s.c.boot) ==>
         s'.m.phys[p] == s.m.phys[p]
  }

  /** Only the address space of slot `t` has changed. */
  ghost predicate Only(s: Sys, s': Sys, t: nat) {
    && s'.c == s.c && s'.m.roots == s.m.roots && s'.m.width == s.m.width && |s'.ref| == |s.ref|
    && (forall u: nat, p: int, leaf: bool :: u < |s.m.roots| && u != t ==>
          Slot(s'.m, u, p, leaf) == Slot(s.m, u, p, leaf))
    && (forall r: Path :: InTree(s.m, r) && r.t != t ==> Pte(s'.m, r) == Pte(s.m, r))
    && SamePages(s, s') && OtherTables(s, s', t)
  }

  /** The tables of every other slot keep their contents. */
  ghost predicate OtherTables(s: Sys, s': Sys, t: nat) {
    forall u: nat, D: int, x: nat :: u < |s.m.roots| && u != t && Slot(s.m, u, D, false) > 0 ==>
        At(s'.m, D, x) == At(s.m, D, x)
  }

  // ------------------------------------------------------------------------
  // Concrete writes

  function SetWord(m: Mem, N: nat, x: nat, e: Word): Mem
    requires N < |m.phys| && x < |m.phys[N]|
  {
    m.(phys := m.phys[N := m.phys[N][x := e]])
  }

  function Zeros(): (z: seq<Word>)
    ensures |z| == TABLE_SIZE && forall x :: 0 <= x < TABLE_SIZE ==> z[x] == ZERO
  {
    seq(TABLE_SIZE, _ => ZERO)
  }

  function SetPage(m: Mem, Z: nat, f: seq<Word>): Mem
    requires Z < |m.phys|
  {
    m.(phys := m.phys[Z := f])
  }

  lemma SetWordWrote(m: Mem, N: nat, x: nat, e: Word)
    requires N < |m.phys| && x < |m.phys[N]|
    ensures Wrote(m, SetWord(m, N, x, e), N, x, e)
  {
  }

  lemma SetPageSameBut(m: Mem, Z: nat, f: seq<Word>)
    requires Z < |m.phys|
    ensures SameBut(m, SetPage(m, Z, f), Z)
  {
  }

  // ------------------------------------------------------------------------
  // page_alloc

  function Popped(s: Sys): Sys
    requires |s.free| > 0 && s.free[0] < |s.ref|
  {
    s.(free := s.free[1..], ref := s.ref[s.free[0] := 0])
  }

  lemma PoppedInUse(s: Sys, p: int)
    requires Shape(s) && |s.free| > 0
    ensures InUse(Popped(s), p) <==> InUse(s, p) || p == s.free[0]
    ensures Limbo(Popped(s), p) <==> Limbo(s, p) || p == s.free[0]
  {
    if p in s.free {
      var i :| 0 <= i < |s.free| && s.free[i] == p;
      if i > 0 { assert s.free[1..][i - 1] == p; }
    }
  }

  /** Taking the first free page keeps the invariant; nothing names that page. */
  lemma AllocInv(s: Sys)
    requires Inv(s) && |s.free| > 0
    ensures Inv(Popped(s)) && Limbo(Popped(s), s.free[0]) && Refs(s, s.free[0]) == 0
  {
    var s' := Popped(s);
    assert !InUse(s, s.free[0]);
    forall p: int ensures Refs(s', p) == Refs(s, p) && (InUse(s', p) <==> InUse(s, p) || p == s.free[0]) {
      PoppedInUse(s, p);
    }
  }

  // ------------------------------------------------------------------------
  // mmap_lookup: hanging an empty table into the tree

  /** The boot pages hold the same words, KERNEL_TEMP apart. */
  ghost predicate SameBoot(m: Mem, m': Mem, c: Image) {
    && |m'.phys| == |m.phys|
    && forall D: nat, x: nat :: D in c.boot && (D != c.kpt || x != TEMP.i1) ==> At(m', D, x) == At(m, D, x)
  }

  lemma {:induction false} KernelWalk(m: Mem, m': Mem, c: Image, q: Path, l: nat)
    requires KernelHalf(m, c) && SameBoot(m, m', c) && KernelPath(q) && 1 <= l <= 4
    ensures Node(m', 4, c.kroot, q, l) == Node(m, 4, c.kroot, q, l)
    decreases 4 - l
  {
    if l < 4 {
      KernelWalk(m, m', c, q, l + 1);
      NodeStep(m, 4, c.kroot, q, l);
      NodeStep(m', 4, c.kroot, q, l);
      var T := Node(m, 4, c.kroot, q, l + 1);
      if T.Some? && l < 3 {
        assert KernelNode(q, l + 1, T.value, c);
      }
    }
  }

  lemma {:induction false} KernelLeaf(m: Mem, m': Mem, c: Image, q: Path)
    requires KernelHalf(m, c) && SameBoot(m, m', c) && KernelPath(q) && q.v != TEMP
    ensures Leaf(m', 4, c.kroot, q) == Leaf(m, 4, c.kroot, q)
  {
    KernelWalk(m, m', c, q, 1);
    var T := Node(m, 4, c.kroot, q, 1);
    if T.Some? {
      NodeLeaf(m, 4, c.kroot, q);
      NodeLeaf(m', 4, c.kroot, q);
      assert KernelNode(q, 1, T.value, c);
    } else {
      NoNodeNoLeaf(m, 4, c.kroot, q);
      NoNodeNoLeaf(m', 4, c.kroot, q);
    }
  }

  lemma KernelHalfKept(m: Mem, m': Mem, c: Image)
    requires KernelHalf(m, c) && m'.roots == m.roots && SameBoot(m, m', c)
    requires forall t: nat, x: nat :: t < |m.roots| && m.roots[t] >= 0 && USER_SLOTS <= x ==>
               At(m', m.roots[t], x) == At(m, m.roots[t], x)
    ensures KernelHalf(m', c)
  {
    KernelTablesKept(m, m', c);
  }

  /** The kernel's half does not depend on which tasks there are. */
  lemma KernelTablesKept(m: Mem, m': Mem, c: Image)
    requires KernelHalf(m, c) && SameBoot(m, m', c)
    ensures KernelTables(m', c)
  {
    forall q: Path, l: nat | KernelPath(q) && 1 <= l <= 4
      ensures Node(m', 4, c.kroot, q, l) == Node(m, 4, c.kroot, q, l)
    {
      KernelWalk(m, m', c, q, l);
    }
    forall q: Path | KernelPath(q) && q.v != TEMP ensures Leaf(m', 4, c.kroot, q) == Leaf(m, 4, c.kroot, q) {
      KernelLeaf(m, m', c, q);
    }
    forall q: Path, l: nat | KernelPath(q) && 2 <= l <= 4 && Node(m, 4, c.kroot, q, l).Some?
      ensures var T := Node(m, 4, c.kroot, q, l).value; At(m', T, Idx(q, l)) == At(m, T, Idx(q, l))
    {
      if l < 4 { assert KernelNode(q, l, Node(m, 4, c.kroot, q, l).value, c); }
    }
  }

  /** The memory after page `Z` has been zeroed and named by the entry `e` at `x` of `N`. */
  function Hung(m: Mem, N: nat, x: nat, Z: nat, e: Word): Mem
    requires N < |m.phys| && Z < |m.phys| && N != Z && x < |m.phys[N]|
  {
    SetWord(SetPage(m, Z, Zeros()), N, x, e)
  }

  /** `N` is the table of level `l` along `q`, with room for the page `Z` that is no table. */
  ghost predicate Room(s: Sys, q: Path, l: nat, N: int, Z: nat) {
    && 2 <= l <= 4 && InTree(s.m, q) && s.m.width == USER_SLOTS && Node(s.m, 5, TOP, q, l) == Some(N)
    && 0 <= N < |s.m.phys| && Z < |s.m.phys| && N != Z && |s.m.phys[N]| == TABLE_SIZE
    && !At(s.m, N, Idx(q, l)).p && Tables(s.m, Z) == 0 && Z !in s.c.boot && N !in s.c.boot
  }

  lemma GrowForest(s: Sys, q: Path, l: nat, N: nat, Z: nat, e: Word)
    requires Once(s.m, 5, TOP, 0) && Room(s, q, l, N, Z) && e.p && e.ppn == Z && Plain(e)
    ensures TableAdded(s.m, Hung(s.m, N, Idx(q, l), Z, e), q.t, Z)
  {
    hide Cnt, Ent, Leaf, Once;
    var m1 := SetPage(s.m, Z, Zeros());
    SetPageSameBut(s.m, Z, Zeros());
    NonTable(s.m, m1, Z);
    SameOnce(s.m, m1);
    FrameNode(s.m, m1, 5, TOP, q, l);
    SetWordWrote(m1, N, Idx(q, l), e);
    LinkTable(m1, SetWord(m1, N, Idx(q, l), e), q, l, N, Z, e);
  }

  /** After the table has been hung, the walk along `q` goes on to it. */
  lemma GrowNode(s: Sys, q: Path, l: nat, N: nat, Z: nat, e: Word)
    requires Once(s.m, 5, TOP, 0) && Room(s, q, l, N, Z) && e.p && e.ppn == Z
    ensures Node(Hung(s.m, N, Idx(q, l), Z, e), 5, TOP, q, l - 1) == Some(Z)
  {
    hide Cnt, Ent, Leaf, Once;
    var m1 := SetPage(s.m, Z, Zeros());
    var m' := SetWord(m1, N, Idx(q, l), e);
    SetPageSameBut(s.m, Z, Zeros());
    NonTable(s.m, m1, Z);
    SameOnce(s.m, m1);
    FrameNode(s.m, m1, 5, TOP, q, l);
    SetWordWrote(m1, N, Idx(q, l), e);
    WroteNode(m1, m', 5, TOP, q, l, N, e);
    NodeStep(m', 5, TOP, q, l - 1);
  }

  lemma GrowKernel(s: Sys, q: Path, l: nat, N: nat, Z: nat, e: Word)
    requires Once(s.m, 5, TOP, 0) && KernelHalf(s.m, s.c) && Room(s, q, l, N, Z)
    ensures KernelHalf(Hung(s.m, N, Idx(q, l), Z, e), s.c)
  {
    var m' := Hung(s.m, N, Idx(q, l), Z, e);
    forall t: nat, x: nat | t < |s.m.roots| && s.m.roots[t] >= 0 && USER_SLOTS <= x
      ensures At(m', s.m.roots[t], x) == At(s.m, s.m.roots[t], x)
    {
      RootIsTable(s.m, t);
      if l < 4 { RootsApart(s.m, q, l, t); }
    }
    KernelHalfKept(s.m, m', s.c);
  }

  /** Nothing but the tables of slot `t` has changed, and no translation. */
  ghost predicate Grown(s: Sys, s': Sys, t: nat) {
    && Only(s, s', t)
    && (forall r: Path :: InTree(s.m, r) ==> Pte(s'.m, r) == Pte(s.m, r))
    && (forall p: int :: Maps(s'.m, p) == Maps(s.m, p) && Slot(s'.m, t, p, true) == Slot(s.m, t, p, true))
    && (forall p: int :: Tables(s'.m, p) >= Tables(s.m, p))
    && (forall p: int :: InUse(s, p) ==> InUse(s', p) && Tables(s'.m, p) == Tables(s.m, p))
    && (forall p: int :: Limbo(s', p) <==> Limbo(s, p))
  }

  lemma GrowExact(s: Sys, s': Sys, t: nat, Z: nat)
    requires Inv(s) && Limbo(s, Z) && TableAdded(s.m, s'.m, t, Z)
    requires s' == s.(m := s'.m, ref := s.ref[Z := 1]) && TempPte(s'.m, s.c) == TempPte(s.m, s.c)
    ensures Exact(s') && Forest(s'.m)
  {
    hide Cnt, Ent, Leaf;
    forall p: int ensures Refs(s', p) == Refs(s, p) + (if p == Z then 1 else 0) {}
    assert Refs(s, Z) == 0;
    forall p: int ensures Cnt(s'.m, 5, TOP, 0, p, false) <= 1 {
      assert Tables(s'.m, p) <= 1;
    }
    assert Tables(s'.m, TOP) == 0;
  }

  /** The state after the first free page has been zeroed, counted once and hung into `N`. */
  function Hanging(s: Sys, N: nat, x: nat, e: Word): Sys
    requires |s.free| > 0 && s.free[0] < |s.ref| == |s.m.phys|
    requires N < |s.m.phys| && N != s.free[0] && x < |s.m.phys[N]|
  {
    s.(m := Hung(s.m, N, x, s.free[0], e), free := s.free[1..], ref := s.ref[s.free[0] := 1])
  }

  lemma GrowRoom(s: Sys, q: Path, l: nat)
    requires Inv(s) && |s.free| > 0 && 2 <= l <= 4 && InTree(s.m, q) && Node(s.m, 5, TOP, q, l).Some?
    ensures var N := Node(s.m, 5, TOP, q, l).value;
            && InUse(s, N) && (!At(s.m, N, Idx(q, l)).p ==> Room(s, q, l, N, s.free[0]))
  {
    NodeIsTable(s.m, q, l);
    AllocInv(s);
  }

  lemma GrowShape(s: Sys, q: Path, l: nat, N: nat, e: Word)
    requires Shape(s) && |s.free| > 0 && Room(s, q, l, N, s.free[0])
    ensures Shape(Hanging(s, N, Idx(q, l), e))
    ensures TempPte(Hanging(s, N, Idx(q, l), e).m, s.c) == TempPte(s.m, s.c) || s.c.kpt !in s.c.boot
  {
  }

  lemma GrowInv(s: Sys, q: Path, l: nat, N: nat, e: Word)
    requires Inv(s) && |s.free| > 0 && Room(s, q, l, N, s.free[0]) && e.p && e.ppn == s.free[0] && Plain(e)
    ensures Inv(Hanging(s, N, Idx(q, l), e))
  {
    var Z := s.free[0];
    var s' := Hanging(s, N, Idx(q, l), e);
    GrowShape(s, q, l, N, e);
    assert KernelHalf(s'.m, s'.c) by { GrowKernel(s, q, l, N, Z, e); }
    assert Exact(s') && Forest(s'.m) by {
      assert s' == Popped(s).(m := s'.m, ref := Popped(s).ref[Z := 1]);
      AllocInv(s);
      GrowForest(s, q, l, N, Z, e);
      GrowExact(Popped(s), s', q.t, Z);
    }
  }

  lemma GrowOthers(s: Sys, q: Path, l: nat, N: nat, e: Word)
    requires Shape(s) && Once(s.m, 5, TOP, 0) && |s.free| > 0 && Room(s, q, l, N, s.free[0])
    ensures OtherTables(s, Hanging(s, N, Idx(q, l), e), q.t)
  {
    hide Once;
    var Z := s.free[0];
    NodeCounted(s.m, 5, TOP, q, l);
    forall u: nat, D: int | u < |s.m.roots| && u != q.t && Slot(s.m, u, D, false) > 0
      ensures D != N && D != Z && D != TOP
    {
      OneOwner(s.m, u, q.t, D);
      EntInCnt(s.m, 5, TOP, 0, u, D, false);
      TopUnnamed(s.m, u);
    }
  }

  lemma TopUnnamed(m: Mem, u: nat)
    requires Once(m, 5, TOP, 0) && u < |m.roots|
    ensures Slot(m, u, TOP, false) == 0
  {
    EntInCnt(m, 5, TOP, 0, u, TOP, false);
  }

  lemma GrowGrown(s: Sys, q: Path, l: nat, N: nat, e: Word)
    requires Shape(s) && Once(s.m, 5, TOP, 0) && Tables(s.m, N) > 0
    requires |s.free| > 0 && Room(s, q, l, N, s.free[0]) && e.p && e.ppn == s.free[0] && Plain(e)
    ensures Grown(s, Hanging(s, N, Idx(q, l), e), q.t)
  {
    hide Cnt, Ent, Leaf, Node, Once;
    var Z := s.free[0];
    var s' := Hanging(s, N, Idx(q, l), e);
    GrowForest(s, q, l, N, Z, e);
    GrowOthers(s, q, l, N, e);
    forall p: int ensures (InUse(s, p) ==> InUse(s', p) && p != Z) && (Limbo(s', p) <==> Limbo(s, p)) {
      PoppedInUse(s, p);
    }
  }

  // ------------------------------------------------------------------------
  // page_insert and page_remove: writing one page table entry

  /** `N` is the page table that holds the entry of `q`. */
  ghost predicate Holds(s: Sys, q: Path, N: int) {
    && InTree(s.m, q) && Node(s.m, 5, TOP, q, 1) == Some(N) && s.m.width == USER_SLOTS
    && 0 <= N < |s.m.phys| && |s.m.phys[N]| == TABLE_SIZE && N !in s.c.boot && Tables(s.m, N) == 1
    && At(s.m, N, q.v.i1) == Pte(s.m, q)
  }

  lemma PteHolds(s: Sys, q: Path)
    requires Inv(s) && InTree(s.m, q) && Node(s.m, 5, TOP, q, 1).Some?
    ensures Holds(s, q, Node(s.m, 5, TOP, q, 1).value)
  {
    NodeIsTable(s.m, q, 1);
    NodeLeaf(s.m, 5, TOP, q);
  }

  lemma PteKernel(s: Sys, q: Path, N: nat, e: Word)
    requires Once(s.m, 5, TOP, 0) && KernelHalf(s.m, s.c) && Holds(s, q, N)
    ensures var m' := SetWord(s.m, N, q.v.i1, e); KernelHalf(m', s.c) && TempPte(m', s.c) == TempPte(s.m, s.c)
  {
    var m' := SetWord(s.m, N, q.v.i1, e);
    forall t: nat, x: nat | t < |s.m.roots| && s.m.roots[t] >= 0 && USER_SLOTS <= x
      ensures At(m', s.m.roots[t], x) == At(s.m, s.m.roots[t], x)
    {
      RootsApart(s.m, q, 1, t);
    }
    KernelHalfKept(s.m, m', s.c);
  }

  /** What writing the entry of `q` does to the forest. */
  lemma PteForest(s: Sys, q: Path, N: nat, e: Word)
    requires Forest(s.m) && Holds(s, q, N) && (e.p || e == ZERO)
    ensures var m' := SetWord(s.m, N, q.v.i1, e); PteSet(s.m, m', q, e) && Forest(m')
  {
    hide Cnt, Ent, Leaf, Once;
    var m' := SetWord(s.m, N, q.v.i1, e);
    SetWordWrote(s.m, N, q.v.i1, e);
    WritePte(s.m, m', q, N, e);
    SameOnce(s.m, m');
  }

  /** page_decref on page `p`, the last reference freeing the page. */
  function Dropped(s: Sys, p: nat): Sys
    requires p < |s.ref| && s.ref[p] > 0
  {
    s.(ref := s.ref[p := s.ref[p] - 1], free := if s.ref[p] == 1 then [p] + s.free else s.free)
  }

  function Unmapped(s: Sys, N: nat, x: nat): Sys
    requires N < |s.m.phys| && x < |s.m.phys[N]| && At(s.m, N, x).ppn < |s.ref| && s.ref[At(s.m, N, x).ppn] > 0
  {
    Dropped(s, At(s.m, N, x).ppn).(m := SetWord(s.m, N, x, ZERO))
  }

  function Mapped(s: Sys, N: nat, x: nat, e: Word): Sys
    requires N < |s.m.phys| && x < |s.m.phys[N]| && e.ppn < |s.ref|
  {
    s.(ref := s.ref[e.ppn := s.ref[e.ppn] + 1], m := SetWord(s.m, N, x, e))
  }

  /** The effect of a successful page_insert or page_remove at `q` on everything else. */
  ghost predicate Retargeted(s: Sys, s': Sys, q: Path, e: Word) {
    && Only(s, s', q.t)
    && (forall r: Path :: InTree(s.m, r) ==> Pte(s'.m, r) == if r == q then e else Pte(s.m, r))
    && (forall p: int :: Maps(s'.m, p) + Hit(1, Pte(s.m, q), p, true) == Maps(s.m, p) + Hit(1, e, p, true))
    && (forall p: int ::
          Slot(s'.m, q.t, p, true) + Hit(1, Pte(s.m, q), p, true) == Slot(s.m, q.t, p, true) + Hit(1, e, p, true))
    && (forall p: int :: InUse(s, p) ==> Tables(s'.m, p) == Tables(s.m, p))
    && (forall p: int :: Limbo(s', p) <==> Limbo(s, p) && !Names(e, p))
  }

  lemma DroppedInUse(s: Sys, p: nat, r: int)
    requires Shape(s) && InUse(s, p) && s.ref[p] > 0
    ensures InUse(Dropped(s, p), r) <==> InUse(s, r) && (r == p ==> s.ref[p] > 1)
    ensures Limbo(Dropped(s, p), r) <==> Limbo(s, r)
  {
  }

  /** A mapped page is allocated, counted, and no table. */
  lemma PteTarget(s: Sys, q: Path)
    requires Exact(s) && InTree(s.m, q) && Pte(s.m, q).p
    ensures var p := Pte(s.m, q).ppn; InUse(s, p) && s.ref[p] > 0 && Maps(s.m, p) > 0 && Tables(s.m, p) == 0
  {
    var p := Pte(s.m, q).ppn;
    LeafCounted(s.m, 5, TOP, q);
    EntInCnt(s.m, 5, TOP, 0, q.t, p, true);
    assert Refs(s, p) > 0;
  }

  lemma ShapeKept(s: Sys, s': Sys, N: nat, x: nat, e: Word)
    requires Shape(s) && N < |s.m.phys| && x < TABLE_SIZE
    requires s' == s.(m := SetWord(s.m, N, x, e), ref := s'.ref, free := s'.free)
    requires |s'.ref| == |s.ref| && (s'.free == s.free || exists p: nat :: InUse(s, p) && s'.free == [p] + s.free)
    ensures Shape(s')
  {
  }

  /** page_remove at an existing entry keeps the invariant. */
  lemma UnmapInv(s: Sys, q: Path, N: nat)
    requires Inv(s) && Holds(s, q, N) && Pte(s.m, q).p
    ensures var p := Pte(s.m, q).ppn; InUse(s, p) && s.ref[p] > 0 && Inv(Unmapped(s, N, q.v.i1))
  {
    PteTarget(s, q);
    var s' := Unmapped(s, N, q.v.i1);
    assert Shape(s') by { ShapeKept(s, s', N, q.v.i1, ZERO); }
    assert KernelHalf(s'.m, s'.c) && TempPte(s'.m, s.c) == TempPte(s.m, s.c) by { PteKernel(s, q, N, ZERO); }
    assert Forest(s'.m) && Exact(s') by {
      PteForest(s, q, N, ZERO);
      UnmapExact(s, s', q);
    }
  }

  lemma UnmapExact(s: Sys, s': Sys, q: Path)
    requires Inv(s) && Pte(s.m, q).p && InUse(s, Pte(s.m, q).ppn) && s.ref[Pte(s.m, q).ppn] > 0
    requires s' == Dropped(s, Pte(s.m, q).ppn).(m := s'.m) && PteSet(s.m, s'.m, q, ZERO)
    requires TempPte(s'.m, s.c) == TempPte(s.m, s.c)
    ensures Exact(s')
  {
    var p := Pte(s.m, q).ppn;
    forall r: int
      ensures Refs(s', r) + (if r == p then 1 else 0) == Refs(s, r)
      ensures (InUse(s', r) <==> InUse(s, r) && (r == p ==> s.ref[p] > 1))
    {
      DroppedInUse(s, p, r);
    }
  }

  /** page_insert at an absent entry keeps the invariant. */
  lemma MapInv(s: Sys, q: Path, N: nat, e: Word)
    requires Inv(s) && Holds(s, q, N) && !Pte(s.m, q).p && e.p && InUse(s, e.ppn) && Tables(s.m, e.ppn) == 0
    ensures Inv(Mapped(s, N, q.v.i1, e))
  {
    hide Cnt, Ent, Leaf, Once;
    var s' := Mapped(s, N, q.v.i1, e);
    assert Shape(s') by { ShapeKept(s, s', N, q.v.i1, e); }
    assert KernelHalf(s'.m, s'.c) && TempPte(s'.m, s.c) == TempPte(s.m, s.c) by { PteKernel(s, q, N, e); }
    assert Forest(s'.m) && Exact(s') by {
      PteForest(s, q, N, e);
      forall r: int
        ensures Refs(s', r) == Refs(s, r) + (if r == e.ppn then 1 else 0) && (InUse(s', r) <==> InUse(s, r))
      {
      }
    }
  }

  /** page_insert of the page that is already there keeps the invariant and every count. */
  lemma RemapInv(s: Sys, q: Path, N: nat, e: Word)
    requires Inv(s) && Holds(s, q, N) && Pte(s.m, q).p && e.p && e.ppn == Pte(s.m, q).ppn
    ensures Inv(s.(m := SetWord(s.m, N, q.v.i1, e)))
  {
    hide Cnt, Ent, Leaf, Once;
    var s' := s.(m := SetWord(s.m, N, q.v.i1, e));
    assert Shape(s') by { ShapeKept(s, s', N, q.v.i1, e); }
    assert KernelHalf(s'.m, s'.c) && TempPte(s'.m, s.c) == TempPte(s.m, s.c) by { PteKernel(s, q, N, e); }
    assert Forest(s'.m) && Exact(s') by {
      PteForest(s, q, N, e);
      forall r: int ensures Refs(s', r) == Refs(s, r) && (InUse(s', r) <==> InUse(s, r)) {}
    }
  }

  /** Writing an entry changes no page but the page table. */
  lemma WriteRetargets(s: Sys, s': Sys, q: Path, N: nat, e: Word)
    requires Forest(s.m) && Shape(s) && Holds(s, q, N) && (e.p || e == ZERO)
    requires s'.m == SetWord(s.m, N, q.v.i1, e) && s'.c == s.c && |s'.ref| == |s.ref|
    requires forall p: int :: Limbo(s', p) <==> Limbo(s, p) && !Names(e, p)
    ensures Retargeted(s, s', q, e)
  {
    hide Cnt, Ent, Leaf, Node, Once;
    PteForest(s, q, N, e);
    WriteOthers(s, s', q, N, e);
  }

  lemma WriteOthers(s: Sys, s': Sys, q: Path, N: nat, e: Word)
    requires Forest(s.m) && Holds(s, q, N) && s'.m == SetWord(s.m, N, q.v.i1, e)
    ensures OtherTables(s, s', q.t)
  {
    hide Once;
    NodeCounted(s.m, 5, TOP, q, 1);
    forall u: nat, D: int | u < |s.m.roots| && u != q.t && Slot(s.m, u, D, false) > 0 ensures D != N && D != TOP {
      OneOwner(s.m, u, q.t, D);
      TopUnnamed(s.m, u);
    }
  }

  // ------------------------------------------------------------------------
  // Walks from a PML4

  /** `r` is the PML4 of the task in slot `q.t`. */
  ghost predicate Root(s: Sys, r: int, q: Path) {
    q.t < |s.m.roots| && s.m.roots[q.t] == r && r >= 0
  }

  /** Every table met on a walk, user or kernel, is a page of the page array. */
  lemma WalkInRange(s: Sys, r: int, q: Path, l: nat)
    requires Inv(s) && Root(s, r, q) && 1 <= l <= 4 && Node(s.m, 4, r, q, l).Some?
    ensures 0 <= Node(s.m, 4, r, q, l).value < |s.m.phys| && |s.m.phys[Node(s.m, 4, r, q, l).value]| == TABLE_SIZE
    ensures Node(s.m, 4, r, q, l) == Node(s.m, 5, TOP, q, l)
  {
    if KernelPath(q) && l < 4 {
      assert At(s.m, r, q.v.i4) == At(s.m, s.c.kroot, q.v.i4);
      assert KernelNode(q, l, Node(s.m, 4, s.c.kroot, q, l).value, s.c);
    } else if l == 4 {
      RootIsTable(s.m, q.t);
    } else {
      NodeIsTable(s.m, q, l);
    }
  }

  lemma GrownRefl(s: Sys, t: nat)
    ensures Grown(s, s, t)
  {
  }

  lemma GrownTrans(s: Sys, s1: Sys, s2: Sys, t: nat)
    requires Grown(s, s1, t) && Grown(s1, s2, t)
    ensures Grown(s, s2, t)
  {
  }

  /** Making a missing table: all that mmap_lookup needs to know. */
  lemma GrowAll(s: Sys, r: int, q: Path, l: nat, N: nat, e: Word)
    requires Inv(s) && Root(s, r, q) && !KernelPath(q) && 2 <= l <= 4 && |s.free| > 0
    requires Node(s.m, 4, r, q, l) == Some(N) && !At(s.m, N, Idx(q, l)).p && e.p && e.ppn == s.free[0]
    requires Plain(e)
    ensures Room(s, q, l, N, s.free[0]) && N < |s.m.phys| && N != s.free[0] && |s.m.phys[N]| == TABLE_SIZE
    ensures var s' := Hanging(s, N, Idx(q, l), e);
            Inv(s') && Grown(s, s', q.t) && Node(s'.m, 4, r, q, l - 1) == Some(e.ppn)
  {
    assert Node(s.m, 5, TOP, q, l) == Some(N);
    GrowRoom(s, q, l);
    NodeIsTable(s.m, q, l);
    assert Inv(Hanging(s, N, Idx(q, l), e)) by { GrowInv(s, q, l, N, e); }
    assert Grown(s, Hanging(s, N, Idx(q, l), e), q.t) by { GrowGrown(s, q, l, N, e); }
    GrowNode(s, q, l, N, s.free[0], e);
  }

  lemma RootLeaf(m: Mem, r: int, q: Path)
    requires q.t < |m.roots| && m.roots[q.t] == r >= 0
    ensures Pte(m, q) == Leaf(m, 4, r, q)
    ensures forall l: nat :: l <= 4 ==> Node(m, 5, TOP, q, l) == Node(m, 4, r, q, l)
  {
  }

  // ------------------------------------------------------------------------
  // KERNEL_TEMP

  /** A write to KERNEL_TEMP is invisible to every task's own tables. */
  lemma TempForest(s: Sys, e: Word)
    requires Inv(s)
    ensures s.c.kpt < |s.m.phys| && |s.m.phys[s.c.kpt]| == TABLE_SIZE
    ensures var m' := SetWord(s.m, s.c.kpt, TEMP.i1, e);
            && SameForest(s.m, m') && Forest(m') && KernelHalf(m', s.c) && TempPte(m', s.c) == e
  {
    hide Cnt, Ent, Leaf;
    var m' := SetWord(s.m, s.c.kpt, TEMP.i1, e);
    assert Refs(s, s.c.kpt) == 0;
    NonTable(s.m, m', s.c.kpt);
    SameOnce(s.m, m');
    forall t: nat, x: nat | t < |s.m.roots| && s.m.roots[t] >= 0 && USER_SLOTS <= x
      ensures At(m', s.m.roots[t], x) == At(s.m, s.m.roots[t], x)
    {
      RootIsTable(s.m, t);
    }
    KernelHalfKept(s.m, m', s.c);
  }

  lemma TempUnmapInv(s: Sys)
    requires Inv(s) && TempPte(s.m, s.c).p
    ensures var p := TempPte(s.m, s.c).ppn; InUse(s, p) && s.ref[p] > 0 && Inv(Unmapped(s, s.c.kpt, TEMP.i1))
  {
    hide Cnt, Ent, Leaf;
    var p := TempPte(s.m, s.c).ppn;
    assert Refs(s, p) > 0;
    TempForest(s, ZERO);
    var s' := Unmapped(s, s.c.kpt, TEMP.i1);
    assert Shape(s') by { ShapeKept(s, s', s.c.kpt, TEMP.i1, ZERO); }
    forall r: int
      ensures Refs(s', r) + (if r == p then 1 else 0) == Refs(s, r)
      ensures (InUse(s', r) <==> InUse(s, r) && (r == p ==> s.ref[p] > 1))
    {
      DroppedInUse(s, p, r);
    }
  }

  lemma TempMapInv(s: Sys, e: Word)
    requires Inv(s) && !TempPte(s.m, s.c).p && e.p && InUse(s, e.ppn) && Tables(s.m, e.ppn) == 0
    ensures Inv(Mapped(s, s.c.kpt, TEMP.i1, e))
  {
    hide Cnt, Ent, Leaf;
    TempForest(s, e);
    var s' := Mapped(s, s.c.kpt, TEMP.i1, e);
    assert Shape(s') by { ShapeKept(s, s', s.c.kpt, TEMP.i1, e); }
    forall r: int
      ensures Refs(s', r) == Refs(s, r) + (if r == e.ppn then 1 else 0) && (InUse(s', r) <==> InUse(s, r))
    {
    }
  }

  // ------------------------------------------------------------------------
  // page_insert once the page table is there

  function Stored(s: Sys, N: nat, x: nat, e: Word): Sys
    requires N < |s.m.phys| && x < |s.m.phys[N]| && e.ppn < |s.ref|
    requires At(s.m, N, x).p ==> At(s.m, N, x).ppn < |s.ref| && s.ref[At(s.m, N, x).ppn] > 0
  {
    var was := At(s.m, N, x);
    if was.ppn == e.ppn then s.(m := SetWord(s.m, N, x, e))
    else Mapped(if was.p then Unmapped(s, N, x) else s, N, x, e)
  }

  /** `q` lies in the private part of a task, or is KERNEL_TEMP while nothing is mapped there. */
  ghost predicate Site(s: Sys, q: Path) {
    !KernelPath(q) || (q.v == TEMP && TempPte(s.m, s.c) == ZERO)
  }

  lemma StoredInv(s: Sys, q: Path, N: nat, e: Word)
    requires Inv(s) && Holds(s, q, N) && e.p && InUse(s, e.ppn) && Tables(s.m, e.ppn) == 0
    ensures Pte(s.m, q).p ==> InUse(s, Pte(s.m, q).ppn) && s.ref[Pte(s.m, q).ppn] > 0
    ensures Inv(Stored(s, N, q.v.i1, e)) && Retargeted(s, Stored(s, N, q.v.i1, e), q, e)
  {
    hide Cnt, Ent, Leaf, Once, Node, Retargeted, Exact, KernelHalf;
    var was, x := Pte(s.m, q), q.v.i1;
    assert was.p || was == ZERO;
    if was.p { PteTarget(s, q); }
    var s' := Stored(s, N, x, e);
    if was.ppn == e.ppn {
      assert was.p;
      RemapInv(s, q, N, e);
      PositiveRef(s, q);
    } else if was.p {
      var s1 := Unmapped(s, N, x);
      UnmapInv(s, q, N);
      UnmapHolds(s, q, N);
      assert InUse(s1, e.ppn)
          && Tables(s1.m, e.ppn) == 0 by { DroppedInUse(s, was.ppn, e.ppn); UnmapTables(s, q, N, e.ppn); }
      MapInv(s1, q, N, e);
      SetTwice(s.m, N, x, e);
      forall r: int { DroppedInUse(s, was.ppn, r); }
    } else {
      MapInv(s, q, N, e);
    }
    assert forall r: int :: Limbo(s', r) <==> Limbo(s, r) && !Names(e, r);
    WriteRetargets(s, s', q, N, e);
  }

  lemma PositiveRef(s: Sys, q: Path)
    requires Inv(s) && InTree(s.m, q) && Pte(s.m, q).p
    ensures InUse(s, Pte(s.m, q).ppn) && s.ref[Pte(s.m, q).ppn] > 0
  {
    PteTarget(s, q);
  }

  lemma SetTwice(m: Mem, N: nat, x: nat, e: Word)
    requires N < |m.phys| && x < |m.phys[N]|
    ensures SetWord(SetWord(m, N, x, ZERO), N, x, e) == SetWord(m, N, x, e)
  {
    var f := m.phys[N];
    assert f[x := ZERO][x := e] == f[x := e];
    assert m.phys[N := f[x := ZERO]][N := f[x := e]] == m.phys[N := f[x := e]];
  }

  lemma UnmapHolds(s: Sys, q: Path, N: nat)
    requires Inv(s) && Holds(s, q, N) && Pte(s.m, q).p
    requires InUse(s, Pte(s.m, q).ppn) && s.ref[Pte(s.m, q).ppn] > 0
    ensures Holds(Unmapped(s, N, q.v.i1), q, N) && Pte(Unmapped(s, N, q.v.i1).m, q) == ZERO
  {
    hide Cnt, Ent, Leaf, Once, Node, Exact, KernelHalf;
    PteForest(s, q, N, ZERO);
    SetWordWrote(s.m, N, q.v.i1, ZERO);
    WroteNode(s.m, SetWord(s.m, N, q.v.i1, ZERO), 5, TOP, q, 1, N, ZERO);
  }

  lemma UnmapTables(s: Sys, q: Path, N: nat, p: int)
    requires Inv(s) && Holds(s, q, N) && Pte(s.m, q).p
    requires InUse(s, Pte(s.m, q).ppn) && s.ref[Pte(s.m, q).ppn] > 0
    ensures Tables(Unmapped(s, N, q.v.i1).m, p) == Tables(s.m, p)
  {
    hide Cnt, Ent, Leaf, Once, Node, Exact, KernelHalf;
    PteForest(s, q, N, ZERO);
  }

  /** The page table reached from the PML4 of a task holds the entry of `q`. */
  lemma WalkHolds(s: Sys, r: int, q: Path)
    requires Inv(s) && Root(s, r, q) && !KernelPath(q) && Node(s.m, 4, r, q, 1).Some?
    ensures Holds(s, q, Node(s.m, 4, r, q, 1).value)
  {
    RootLeaf(s.m, r, q);
    PteHolds(s, q);
  }

  /** From every task's PML4 the way to KERNEL_TEMP is there. */
  lemma TempNode(s: Sys, r: int, t: nat)
    requires Inv(s) && Root(s, r, Path(t, TEMP))
    ensures Node(s.m, 4, r, Path(t, TEMP), 1) == Some(s.c.kpt)
    ensures s.c.kpt < |s.m.phys| && |s.m.phys[s.c.kpt]| == TABLE_SIZE
    ensures Leaf(s.m, 4, r, Path(t, TEMP)) == TempPte(s.m, s.c)
  {
    var q := Path(t, TEMP);
    assert At(s.m, r, q.v.i4) == At(s.m, s.c.kroot, q.v.i4);
    assert Node(s.m, 4, s.c.kroot, q, 1) == Some(s.c.kpt);
    NodeLeaf(s.m, 4, r, q);
  }

  lemma GrownRetargeted(s: Sys, s1: Sys, s2: Sys, q: Path, e: Word)
    requires Grown(s, s1, q.t) && Retargeted(s1, s2, q, e) && InTree(s.m, q)
    ensures Retargeted(s, s2, q, e)
  {
  }

  lemma GrownKeeps(s: Sys, s': Sys, t: nat, p: int)
    requires Grown(s, s', t) && InUse(s, p)
    ensures InUse(s', p) && Tables(s'.m, p) == Tables(s.m, p)
  {
  }

  /** There is a counted mapping at `q`, in a page table reached from `r`. */
  ghost predicate Removable(s: Sys, r: int, q: Path) {
    && Node(s.m, 4, r, q, 1).Some?
    && var N := Node(s.m, 4, r, q, 1).value;
    && 0 <= N < |s.m.phys| && q.v.i1 < |s.m.phys[N]| && At(s.m, N, q.v.i1) == Leaf(s.m, 4, r, q)
    && InUse(s, At(s.m, N, q.v.i1).ppn) && s.ref[At(s.m, N, q.v.i1).ppn] > 0
  }

  lemma RemoveInv(s: Sys, r: int, q: Path)
    requires Inv(s) && Root(s, r, q) && (KernelPath(q) ==> q.v == TEMP) && Leaf(s.m, 4, r, q).p
    ensures Removable(s, r, q) && Inv(Unmapped(s, Node(s.m, 4, r, q, 1).value, q.v.i1))
    ensures !KernelPath(q) ==> Retargeted(s, Unmapped(s, Node(s.m, 4, r, q, 1).value, q.v.i1), q, ZERO)
  {
    hide Inv, Node, Leaf, Cnt, Ent, Retargeted;
    if KernelPath(q) {
      TempNode(s, r, q.t);
      TempUnmapInv(s);
    } else {
      if Node(s.m, 4, r, q, 1).None? { NoNodeNoLeaf(s.m, 4, r, q); }
      WalkHolds(s, r, q);
      RootLeaf(s.m, r, q);
      UnmapInv(s, q, Node(s.m, 4, r, q, 1).value);
      UnmapRetargets(s, q, Node(s.m, 4, r, q, 1).value);
    }
  }

  lemma UnmapRetargets(s: Sys, q: Path, N: nat)
    requires Inv(s) && Holds(s, q, N) && Pte(s.m, q).p && InUse(s, Pte(s.m, q).ppn) && s.ref[Pte(s.m, q).ppn] > 0
    ensures Retargeted(s, Unmapped(s, N, q.v.i1), q, ZERO)
  {
    hide Cnt, Ent, Leaf, Once, Node, Exact, KernelHalf, Retargeted;
    var s' := Unmapped(s, N, q.v.i1);
    forall r: int ensures Limbo(s', r) <==> Limbo(s, r) { DroppedInUse(s, Pte(s.m, q).ppn, r); }
    WriteRetargets(s, s', q, N, ZERO);
  }

  /** What page_insert does once mmap_lookup has found the page table `N`. */
  lemma InsertInv(s: Sys, r: int, q: Path, N: nat, e: Word)
    requires Inv(s) && Root(s, r, q) && Site(s, q) && Node(s.m, 4, r, q, 1) == Some(N)
    requires e.p && InUse(s, e.ppn) && Tables(s.m, e.ppn) == 0
    ensures N < |s.m.phys| && |s.m.phys[N]| == TABLE_SIZE && At(s.m, N, q.v.i1) == Leaf(s.m, 4, r, q)
    ensures var was := At(s.m, N, q.v.i1); was.p ==> Removable(s, r, q)
    ensures Inv(Stored(s, N, q.v.i1, e))
    ensures !KernelPath(q) ==> Retargeted(s, Stored(s, N, q.v.i1, e), q, e)
    ensures KernelPath(q) ==> Stored(s, N, q.v.i1, e) == Mapped(s, s.c.kpt, TEMP.i1, e)
    ensures StoredAt(s, Stored(s, N, q.v.i1, e), r, q, e)
  {
    hide Node, Leaf, Cnt, Ent, Retargeted, Once, KernelHalf, Exact;
    if KernelPath(q) {
      TempNode(s, r, q.t);
      TempMapInv(s, e);
    } else {
      WalkHolds(s, r, q);
      RootLeaf(s.m, r, q);
      StoredInv(s, q, N, e);
    }
  }

  predicate TempFits(c: Image, s: Sys) {
    c.kpt < |s.m.phys| && TEMP.i1 < |s.m.phys[c.kpt]|
  }

  // ------------------------------------------------------------------------
  // task_new: a new address space

  /** The first words of a new PML4 are zero, the rest is the kernel's. */
  function KernelCopy(f: seq<Word>): seq<Word>
    requires |f| == TABLE_SIZE
  {
    Zeros()[..USER_SLOTS - 1] + f[USER_SLOTS - 1..]
  }

  /** The state after the first free page has become the PML4 of slot `t`. */
  function Spawned(s: Sys, t: nat): Sys
    requires |s.free| > 0 && s.free[0] < |s.ref| == |s.m.phys| && s.c.kroot < |s.m.phys|
    requires |s.m.phys[s.c.kroot]| == TABLE_SIZE
    requires t < |s.m.roots|
  {
    var Z := s.free[0];
    s.(m := SetPage(s.m, Z, KernelCopy(s.m.phys[s.c.kroot])).(roots := s.m.roots[t := Z]), free := s.free[1..],
        ref := s.ref[Z := 1])
  }

  /** The effect of task_new: slot `t` has an address space of its own, with nothing in it. */
  ghost predicate NewSpace(s: Sys, s': Sys, t: nat) {
    && t < |s.m.roots| && |s.free| > 0 && s'.free == s.free[1..] && s'.c == s.c && |s'.ref| == |s.ref|
    && s'.m.roots == s.m.roots[t := s.free[0]] && TableAdded(s.m, s'.m, t, s.free[0]) && s'.m.width == s.m.width
    && (forall p: int, leaf: bool :: Slot(s'.m, t, p, leaf) == if p == s.free[0] && !leaf then 1 else 0)
    && (forall v: Vpage :: v.i4 < s.m.width ==> Pte(s'.m, Path(t, v)) == ZERO)
    && SamePages(s, s') && (forall p: int :: Limbo(s', p) <==> Limbo(s, p))
    && (forall p: int :: InUse(s', p) <==> InUse(s, p) || p == s.free[0])
  }

  lemma SpawnForest(s: Sys, t: nat)
    requires Inv(s) && |s.free| > 0 && t < |s.m.roots| && s.m.roots[t] < 0
    ensures s.c.kroot < |s.m.phys| && |s.m.phys[s.c.kroot]| == TABLE_SIZE
    ensures TableAdded(s.m, Spawned(s, t).m, t, s.free[0])
  {
    hide Cnt, Ent, Leaf, Once;
    var Z := s.free[0];
    var m1 := SetPage(s.m, Z, KernelCopy(s.m.phys[s.c.kroot]));
    var m' := Spawned(s, t).m;
    AllocInv(s);
    SetPageSameBut(s.m, Z, KernelCopy(s.m.phys[s.c.kroot]));
    NonTable(s.m, m1, Z);
    SameOnce(s.m, m1);
    var q := Path(t, Vpage(0, 0, 0, 0));
    assert At(s.m, s.c.kroot, USER_SLOTS - 1) == ZERO;
    assert forall x: nat :: x < USER_SLOTS ==> At(m1, Z, x) == ZERO;
    assert Wrote(m1, m', TOP, t, ZERO.(ppn := Z, p := true));
    LinkTable(m1, m', q, 5, TOP, Z, ZERO.(ppn := Z, p := true));
  }

  lemma SpawnKernel(s: Sys, t: nat)
    requires Inv(s) && |s.free| > 0 && t < |s.m.roots| && s.m.roots[t] < 0
    requires s.c.kroot < |s.m.phys| && |s.m.phys[s.c.kroot]| == TABLE_SIZE
    ensures var s' := Spawned(s, t); KernelHalf(s'.m, s.c) && TempPte(s'.m, s.c) == TempPte(s.m, s.c) && Shape(s')
  {
    hide Cnt, Ent, Exact, Forest, KernelTables;
    var Z := s.free[0];
    var m' := Spawned(s, t).m;
    assert SameBoot(s.m, m', s.c);
    KernelTablesKept(s.m, m', s.c);
    forall u: nat, x: nat | u < |m'.roots| && m'.roots[u] >= 0 && USER_SLOTS <= x
      ensures At(m', m'.roots[u], x) == At(m', s.c.kroot, x)
    {
      if u != t { SpawnApart(s, u); }
    }
  }

  lemma SpawnApart(s: Sys, u: nat)
    requires Inv(s) && |s.free| > 0 && u < |s.m.roots| && s.m.roots[u] >= 0
    ensures s.m.roots[u] != s.free[0]
  {
    RootIsTable(s.m, u);
    AllocInv(s);
  }

  lemma SpawnInv(s: Sys, t: nat)
    requires Inv(s) && |s.free| > 0 && t < |s.m.roots| && s.m.roots[t] < 0
    ensures s.c.kroot < |s.m.phys| && |s.m.phys[s.c.kroot]| == TABLE_SIZE
    ensures Inv(Spawned(s, t)) && NewSpace(s, Spawned(s, t), t)
  {
    hide Cnt, Ent, Leaf, Once, KernelHalf, Forest, Exact, TableAdded;
    SpawnForest(s, t);
    var Z, s' := s.free[0], Spawned(s, t);
    SpawnKernel(s, t);
    assert s' == Popped(s).(m := s'.m, ref := Popped(s).ref[Z := 1]);
    AllocInv(s);
    GrowExact(Popped(s), s', t, Z);
    SpawnEmpty(s, t);
    forall p: int
      ensures (Limbo(s', p) <==> Limbo(s, p)) && (InUse(s', p) <==> InUse(s, p) || p == Z)
    {
      PoppedInUse(s, p);
    }
  }

  lemma SpawnEmpty(s: Sys, t: nat)
    requires t < |s.m.roots| && s.m.roots[t] < 0 && |s.free| > 0 && s.free[0] < |s.ref| == |s.m.phys|
    requires s.c.kroot < |s.m.phys| && |s.m.phys[s.c.kroot]| == TABLE_SIZE
    requires TableAdded(s.m, Spawned(s, t).m, t, s.free[0])
    ensures var s' := Spawned(s, t);
            && (forall p: int, leaf: bool :: Slot(s'.m, t, p, leaf) == if p == s.free[0] && !leaf then 1 else 0)
            && (forall v: Vpage :: v.i4 < s.m.width ==> Pte(s'.m, Path(t, v)) == ZERO)
  {
    var s' := Spawned(s, t);
    forall p: int, leaf: bool ensures Slot(s.m, t, p, leaf) == 0 {}
    forall v: Vpage | v.i4 < s.m.width ensures Pte(s'.m, Path(t, v)) == ZERO {
      assert InTree(s.m, Path(t, v)) && Pte(s.m, Path(t, v)) == ZERO;
    }
  }

  /** `s'` is `s` after page_insert has found the page table of `q` and stored `e` there. */
  ghost predicate StoredAt(s: Sys, s': Sys, r: int, q: Path, e: Word) {
    && Node(s.m, 4, r, q, 1).Some?
    && var N := Node(s.m, 4, r, q, 1).value;
    && 0 <= N < |s.m.phys| && q.v.i1 < |s.m.phys[N]| && e.ppn < |s.ref|
    && (At(s.m, N, q.v.i1).p ==> At(s.m, N, q.v.i1).ppn < |s.ref| && s.ref[At(s.m, N, q.v.i1).ppn] > 0)
    && s' == Stored(s, N, q.v.i1, e)
  }

  lemma NewTemp(s: Sys, s': Sys, t: nat)
    requires Inv(s) && NewSpace(s, s', t)
    ensures TempPte(s'.m, s.c) == TempPte(s.m, s.c)
  {
    hide Cnt, Ent, Leaf, Slot, Tables, Maps, Exact, Forest;
  }
}
